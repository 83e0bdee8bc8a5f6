/**
 * The parser reads the indicator section, with the actions under each indicator, and the detection
 * section of a printed configuration back. As for the other sections, every lemma takes any state
 * that the section can start from and any lines that may follow it; the item an indicator is still
 * gathering is carried from line to line and flushed by the next item or by the end of the section.
 */
module EngineYamlSections {
  import opened Options
  import opened JsText
  import opened EngineYaml
  import opened EngineYamlLines
  import opened EngineYamlRoundTrip

  // ── indicators ──

  /** Inside the indicators section. */
  function InDefs(f: Fields, defs: seq<Json>, o: Option<map<string, Json>>, name: Option<string>, steps: Option<seq<Json>>): State {
    At(f).(inIndicators := true, defs := defs, indicator := o, actionName := name, actionSteps := steps)
  }

  /** A line of the section, by its indentation and content. */
  lemma DefLine(p: State, line: string, indent: int, content: string)
    requires p.inIndicators && !p.inDetection && !p.failed
    requires KvMatch(TrimEnd(line)) == None && Indent(line) == indent && Trim(TrimEnd(line)) == content
    ensures ReadLine(p, line) == IndicatorLine(p, indent, content)
  {
    hide IndicatorLine, KvMatch, TrimEnd, Trim, Indent;
  }

  lemma IdLine(f: Fields, p: State, defs: seq<Json>, id: string)
    requires IsId(id) && id[0] != '-' && p.inIndicators && !p.inDetection && !p.failed
    requires FlushIndicator(p) == InDefs(f, defs, None, None, None)
    ensures ReadLine(p, "  " + id + ":") == InDefs(f, defs, Some(map["id" := Str(id)]), None, None)
  {
    hide NameMatch, KvMatch, TrimEnd, Trim, Indent, FlushIndicator, ReadLine;
    NameLine("  ", id, "", "  " + id + ":");
    DefLine(p, "  " + id + ":", 2, KeyText(id, ""));
    assert KeyText(id, "")[0] == id[0];
    assert !StartsWith(KeyText(id, ""), "-");
  }

  lemma FieldLine(f: Fields, defs: seq<Json>, o: map<string, Json>, key: string, v: string, line: string)
    requires IsKey(key) && key != "actions" && key != PROTO && IsText(v) && line == "    " + key + ": " + v
    ensures ReadLine(InDefs(f, defs, Some(o), None, None), line)
         == InDefs(f, defs, Some(o[key := Str(StripQuotes(v))]), None, None)
  {
    hide NameMatch, KvMatch, TrimEnd, Trim, Indent, ReadLine, StripQuotes;
    KeyStart(key);
    NameLine("    ", key, v, line);
    DefLine(InDefs(f, defs, Some(o), None, None), line, 4, KeyText(key, v));
  }

  lemma FieldText(f: Fields, defs: seq<Json>, o: map<string, Json>, key: string, v: string, printed: string, line: string)
    requires IsKey(key) && key != "actions" && key != PROTO
    requires v != "" ==> IsText(printed) && line == "    " + key + ": " + printed && StripQuotes(printed) == v
    ensures ReadLines(InDefs(f, defs, Some(o), None, None), if v != "" then [line] else [])
         == InDefs(f, defs, Some(WithText(o, key, v)), None, None)
  {
    hide ReadLine, StripQuotes, IsKey, IsText;
    if v == "" {
      ReadNone(InDefs(f, defs, Some(o), None, None));
    } else {
      FieldLine(f, defs, o, key, printed, line);
      ReadOne(InDefs(f, defs, Some(o), None, None), line);
    }
  }

  lemma ActionsLine(f: Fields, defs: seq<Json>, o: map<string, Json>)
    ensures ReadLine(InDefs(f, defs, Some(o), None, None), "    actions:") == InDefs(f, defs, Some(o), None, None)
  {
    hide NameMatch, KvMatch, TrimEnd, Trim, Indent, ReadLine, IsKey, IsId;
    StepKey("actions");
    assert "    " + "actions" + ":" == "    actions:";
    NameLine("    ", "actions", "", "    actions:");
    DefLine(InDefs(f, defs, Some(o), None, None), "    actions:", 4, KeyText("actions", ""));
  }

  lemma NameLineOpens(f: Fields, defs: seq<Json>, p: State, o: map<string, Json>, name: string)
    requires IsId(name) && p.inIndicators && !p.inDetection && !p.failed && p.indicator.Some?
    requires FlushAction(p) == InDefs(f, defs, Some(o), None, None)
    ensures ReadLine(p, "      " + name + ":") == InDefs(f, defs, Some(o), Some(name), Some([]))
  {
    hide NameMatch, KvMatch, TrimEnd, Trim, Indent, FlushAction, ReadLine;
    NameLine("      ", name, "", "      " + name + ":");
    DefLine(p, "      " + name + ":", 6, KeyText(name, ""));
  }

  lemma ActionItemLine(f: Fields, defs: seq<Json>, o: map<string, Json>, name: string, js: seq<Json>, key: string, v: string,
                       line: string)
    requires IsKey(key) && IsText(v) && line == "        " + "- " + key + ": " + v
    ensures ReadLine(InDefs(f, defs, Some(o), Some(name), Some(js)), line)
         == InDefs(f, defs, Some(o), Some(name), Some(js + ActionStepItem(KeyText(key, v))))
    ensures KvMatch(KeyText(key, v)) == Some(KeyValue(key, v)) && Trim(v) == v
  {
    hide NameMatch, KvMatch, TrimEnd, Trim, Indent, ReadLine, IsKey, KeyText, DropDash, TrimStart, ActionStepItem, IsText;
    ItemLine("        ", key, v, line);
    DefLine(InDefs(f, defs, Some(o), Some(name), Some(js)), line, 8, "- " + KeyText(key, v));
    assert StartsWith("- " + KeyText(key, v), "- ");
  }

  lemma ActionStepItems(key: string, v: string)
    requires KvMatch(KeyText(key, v)) == Some(KeyValue(key, v)) && Trim(v) == v
    ensures key == "keystroke" ==> ActionStepItem(KeyText(key, v)) == [ActionStepJson(Press(v))]
    ensures key == "shell" ==> ActionStepItem(KeyText(key, v)) == [ActionStepJson(Run(v))]
  {
    hide KvMatch, Trim, KeyText;
  }

  lemma ActionItem(f: Fields, defs: seq<Json>, o: map<string, Json>, name: string, js: seq<Json>, s: ActionStep)
    requires ActionStepGood(s)
    ensures ReadLine(InDefs(f, defs, Some(o), Some(name), Some(js)), PrintActionStep(s))
         == InDefs(f, defs, Some(o), Some(name), Some(js + [ActionStepJson(s)]))
  {
    hide KvMatch, Trim, ReadLine, IsKey, IsId, KeyText, ActionStepItem, ActionStepJson, IsText, InDefs;
    match s {
      case Press(key) => {
        StepKey("keystroke");
        assert "        - keystroke: " + key == "        " + "- " + "keystroke" + ": " + key;
        ActionItemLine(f, defs, o, name, js, "keystroke", key, "        - keystroke: " + key);
        ActionStepItems("keystroke", key);
      }
      case Run(command) => {
        StepKey("shell");
        assert "        - shell: " + command == "        " + "- " + "shell" + ": " + command;
        ActionItemLine(f, defs, o, name, js, "shell", command, "        - shell: " + command);
        ActionStepItems("shell", command);
      }
    }
  }

  lemma {:induction false} ActionItems(f: Fields, defs: seq<Json>, o: map<string, Json>, name: string, steps: seq<ActionStep>)
    requires forall s :: s in steps ==> ActionStepGood(s)
    ensures ReadLines(InDefs(f, defs, Some(o), Some(name), Some([])), PrintActionSteps(steps))
         == InDefs(f, defs, Some(o), Some(name), Some(ActionStepsJson(steps)))
  {
    hide ReadLine, ReadLines, ActionStepGood, ActionStepJson, PrintActionStep;
    var p := InDefs(f, defs, Some(o), Some(name), Some([]));
    if |steps| == 0 {
      assert ActionStepsJson(steps) == [];
      ReadNone(p);
    } else {
      var rest, last := steps[..|steps| - 1], steps[|steps| - 1];
      ActionItems(f, defs, o, name, rest);
      ReadAppends(p, PrintActionSteps(rest), [PrintActionStep(last)]);
      ReadOne(InDefs(f, defs, Some(o), Some(name), Some(ActionStepsJson(rest))), PrintActionStep(last));
      ActionItem(f, defs, o, name, ActionStepsJson(rest), last);
      assert ActionStepsJson(steps) == ActionStepsJson(rest) + [ActionStepJson(last)];
    }
  }

  /** The state after some actions: the last one is saved by the next flush. */
  ghost predicate ActionsRead(f: Fields, defs: seq<Json>, o: map<string, Json>, actions: seq<Action>, p: State) {
    && p.inIndicators && !p.inDetection && !p.failed && p.indicator.Some?
    && FlushAction(p) == InDefs(f, defs, Some(WithActions(o, actions)), None, None)
  }

  lemma ActionSaved(f: Fields, defs: seq<Json>, o: map<string, Json>, actions: seq<Action>, a: Action)
    requires "actions" !in o && ActionGood(a)
    ensures ActionsRead(f, defs, o, actions + [a],
                        InDefs(f, defs, Some(WithActions(o, actions)), Some(a.name), Some(ActionStepsJson(a.steps))))
  {
    hide ActionStepsJson;
    assert (actions + [a])[..|actions|] == actions;
    var before := WithActions(o, actions);
    assert a.name != "" by { assert |a.name| > 0; }
    assert ActionProps([]) == map[];
    if |actions| > 0 {
      assert before["actions" := Obj(ActionProps(actions + [a]))] == o["actions" := Obj(ActionProps(actions + [a]))];
    } else {
      assert actions + [a] == [a];
    }
  }

  lemma {:induction false} ReadsActions(f: Fields, defs: seq<Json>, o: map<string, Json>, actions: seq<Action>)
    requires "actions" !in o && forall a :: a in actions ==> ActionGood(a)
    ensures ActionsRead(f, defs, o, actions, ReadLines(InDefs(f, defs, Some(o), None, None), PrintActions(actions)))
  {
    hide ReadLine, ReadLines, PrintActionSteps, ActionStepsJson, ActionStepGood, IsId;
    var p := InDefs(f, defs, Some(o), None, None);
    if |actions| == 0 {
      ReadNone(p);
    } else {
      var rest, a := actions[..|actions| - 1], actions[|actions| - 1];
      assert a in actions && ActionGood(a);
      ReadsActions(f, defs, o, rest);
      var q := ReadLines(p, PrintActions(rest));
      ReadAppends(p, PrintActions(rest), ["      " + a.name + ":"] + PrintActionSteps(a.steps));
      ReadHead(q, "      " + a.name + ":", PrintActionSteps(a.steps));
      NameLineOpens(f, defs, q, WithActions(o, rest), a.name);
      ActionItems(f, defs, WithActions(o, rest), a.name, a.steps);
      ActionSaved(f, defs, o, rest, a);
      assert rest + [a] == actions;
    }
  }

  lemma FlushesIndicator(f: Fields, defs: seq<Json>, o: map<string, Json>, p: State)
    requires FlushAction(p) == InDefs(f, defs, Some(o), None, None)
    ensures FlushIndicator(p) == InDefs(f, defs + [Obj(o)], None, None, None)
  {
    hide FlushAction;
  }

  lemma FlushesPlain(f: Fields, defs: seq<Json>, o: map<string, Json>)
    ensures FlushAction(InDefs(f, defs, Some(o), None, None)) == InDefs(f, defs, Some(o), None, None)
  {
  }

  /** Between two indicators. */
  ghost predicate DefsRead(f: Fields, defs: seq<Json>, p: State) {
    && p.inIndicators && !p.inDetection && !p.failed && p.key.None? && p.steps.None?
    && FlushIndicator(p) == InDefs(f, defs, None, None, None)
  }

  lemma ReadsFields(f: Fields, p: State, defs: seq<Json>, d: Indicator, lines: seq<string>)
    requires IndicatorGood(d) && DefsRead(f, defs, p)
    requires lines == ["  " + d.id + ":"]
      + (if d.regex != "" then ["    regex: '" + d.regex + "'"] else [])
      + (if d.badge != "" then ["    badge: " + d.badge] else [])
      + (if d.style != "" then ["    style: " + d.style] else [])
    ensures ReadLines(p, lines) == InDefs(f, defs, Some(IndicatorFields(d)), None, None)
  {
    hide ReadLine, ReadLines, IsId, IsKey, StripQuotes, FlushIndicator, ActionsGood, IsText, Quoted, OneLine;
    var a := ["  " + d.id + ":"];
    var b := if d.regex != "" then ["    regex: '" + d.regex + "'"] else [];
    var c := if d.badge != "" then ["    badge: " + d.badge] else [];
    var e := if d.style != "" then ["    style: " + d.style] else [];
    var o := map["id" := Str(d.id)];
    StepKey("regex");
    StepKey("badge");
    StepKey("style");
    IdLine(f, p, defs, d.id);
    ReadOne(p, a[0]);
    QuotedText(d.regex);
    assert "    " + "regex" + ": " + ("'" + d.regex + "'") == "    regex: '" + d.regex + "'";
    FieldText(f, defs, o, "regex", d.regex, "'" + d.regex + "'", "    regex: '" + d.regex + "'");
    ReadAppends(p, a, b);
    var o1 := WithText(o, "regex", d.regex);
    Unstripped(d.badge);
    FieldText(f, defs, o1, "badge", d.badge, d.badge, "    badge: " + d.badge);
    ReadAppends(p, a + b, c);
    var o2 := WithText(o1, "badge", d.badge);
    Unstripped(d.style);
    FieldText(f, defs, o2, "style", d.style, d.style, "    style: " + d.style);
    ReadAppends(p, a + b + c, e);
  }

  lemma Unstripped(v: string)
    requires Unquoted(v)
    ensures v != "" ==> IsText(v) && StripQuotes(v) == v
  {
  }

  lemma NoActionsYet(d: Indicator)
    ensures "actions" !in IndicatorFields(d)
  {
  }

  lemma ReadsIndicator(f: Fields, p: State, defs: seq<Json>, d: Indicator)
    requires IndicatorGood(d) && DefsRead(f, defs, p)
    ensures DefsRead(f, defs + [IndicatorJson(d)], ReadLines(p, PrintIndicator(d)))
  {
    hide ReadLine, ReadLines, IsId, FlushIndicator, FlushAction, IndicatorFields, Unquoted, OneLine, PrintActions, ActionProps,
         ActionGood;
    var lines := ["  " + d.id + ":"]
      + (if d.regex != "" then ["    regex: '" + d.regex + "'"] else [])
      + (if d.badge != "" then ["    badge: " + d.badge] else [])
      + (if d.style != "" then ["    style: " + d.style] else []);
    ReadsFields(f, p, defs, d, lines);
    var o := IndicatorFields(d);
    NoActionsYet(d);
    match d.actions {
      case None => {
        assert PrintIndicator(d) == lines;
        FlushesPlain(f, defs, o);
        FlushesIndicator(f, defs, o, InDefs(f, defs, Some(o), None, None));
      }
      case Some(actions) => {
        ReadAppends(p, lines, ["    actions:"] + PrintActions(actions));
        ReadHead(InDefs(f, defs, Some(o), None, None), "    actions:", PrintActions(actions));
        ActionsLine(f, defs, o);
        ReadsActions(f, defs, o, actions);
        var q := ReadLines(InDefs(f, defs, Some(o), None, None), PrintActions(actions));
        FlushesIndicator(f, defs, WithActions(o, actions), q);
        SameSection(q);
      }
    }
  }

  /** Flushing an action leaves the hook variables alone. */
  lemma SameSection(p: State)
    ensures FlushAction(p).key == p.key && FlushAction(p).steps == p.steps
  {
  }

  lemma {:induction false} ReadsIndicators(f: Fields, defs: seq<Indicator>)
    requires forall d :: d in defs ==> IndicatorGood(d)
    ensures DefsRead(f, IndicatorsJson(defs), ReadLines(InDefs(f, [], None, None, None), PrintIndicators(defs)))
  {
    hide ReadLine, ReadLines, IndicatorGood, IndicatorJson, PrintIndicator;
    var p := InDefs(f, [], None, None, None);
    if |defs| == 0 {
      assert IndicatorsJson(defs) == [];
      ReadNone(p);
    } else {
      var rest, d := defs[..|defs| - 1], defs[|defs| - 1];
      ReadsIndicators(f, rest);
      ReadAppends(p, PrintIndicators(rest), PrintIndicator(d));
      ReadsIndicator(f, ReadLines(p, PrintIndicators(rest)), IndicatorsJson(rest), d);
      assert IndicatorsJson(defs) == IndicatorsJson(rest) + [IndicatorJson(d)];
    }
  }

  function DefFields(f: Fields, defs: seq<Indicator>): Fields {
    if |defs| == 0 then f else f["indicators" := Encoded(Arr(IndicatorsJson(defs)))]
  }

  lemma DefsSettle(f: Fields, defs: seq<Json>, p: State)
    requires DefsRead(f, defs, p) && |defs| > 0
    ensures Reaches(p, f["indicators" := Encoded(Arr(defs))])
  {
    hide FlushIndicator;
  }

  lemma ReadsIndicatorSection(p: State, f: Fields, defs: seq<Indicator>)
    requires Reaches(p, f) && forall d :: d in defs ==> IndicatorGood(d)
    ensures Reaches(ReadLines(p, PrintIndicatorSection(defs)), DefFields(f, defs))
  {
    hide ReadLine, ReadLines, Reaches, IndicatorGood, IndicatorJson, PrintIndicators, DefsRead;
    if |defs| == 0 {
      ReadNone(p);
    } else {
      assert IsKey("indicators") && HookField("indicators").None?;
      TopLine(p, f, "indicators", "", "indicators:");
      ReadHead(p, "indicators:", PrintIndicators(defs));
      ReadsIndicators(f, defs);
      DefsSettle(f, IndicatorsJson(defs), ReadLines(InDefs(f, [], None, None, None), PrintIndicators(defs)));
    }
  }

  // ── detection ──

  function InDet(f: Fields, det: map<string, Json>, list: Option<string>): State {
    At(f).(inDetection := true, detection := det, listKey := list)
  }

  lemma DetLine(p: State, line: string, indent: int, content: string)
    requires p.inDetection && !p.failed
    requires KvMatch(TrimEnd(line)) == None && Indent(line) == indent && Trim(TrimEnd(line)) == content
    ensures ReadLine(p, line) == DetectionLine(p, indent, content)
  {
    hide DetectionLine, KvMatch, TrimEnd, Trim, Indent;
  }

  lemma DetField(f: Fields, det: map<string, Json>, list: Option<string>, key: string, v: string, line: string)
    requires IsKey(key) && IsText(v) && (line == "  " + key + ": " + v || (v == "" && line == "  " + key + ":"))
    ensures ReadLine(InDet(f, det, list), line) == DetectionField(InDet(f, det, list), key, StripQuotes(v))
  {
    hide KvMatch, TrimEnd, Trim, Indent, ReadLine, StripQuotes, DetectionField, IsKey, IsText, KeyText, ListItems;
    KeyLine("  ", key, v, line);
    DetLine(InDet(f, det, list), line, 2, KeyText(key, v));
  }

  const DET_KEYS: seq<string> :=
    ["idlePatterns", "activePatterns", "contextPattern", "idleThreshold", "activeGraceMs", "snapshotLines", "autoRecover"]

  lemma DetKey(key: string)
    requires key in DET_KEYS
    ensures IsKey(key) && key != PROTO
  {
  }

  lemma PatternLine(f: Fields, det: map<string, Json>, key: string, items: seq<Json>, x: string)
    requires key in det && det[key] == Arr(items) && OneLine(x)
    ensures ReadLine(InDet(f, det, Some(key)), "    - '" + x + "'")
         == InDet(f, det[key := Arr(items + [Str(x)])], Some(key))
  {
    hide KvMatch, TrimEnd, Trim, Indent, ReadLine, StripQuotes, DropDash;
    QuotedItemLine("    ", x);
    assert "    " + ("- '" + x + "'") == "    - '" + x + "'";
    DetLine(InDet(f, det, Some(key)), "    - '" + x + "'", 4, "- '" + x + "'");
  }

  lemma WindowLine(f: Fields, det: map<string, Json>, key: string, items: seq<Json>, x: string)
    requires key in det && det[key] == Arr(items) && OneLine(x)
    ensures ReadLine(InDet(f, det, Some(key)), "    - pattern: '" + x + "'")
         == InDet(f, det[key := Arr(items + [Obj(map["pattern" := Str(x)])])], Some(key))
  {
    hide KvMatch, TrimEnd, Trim, Indent, ReadLine, StripQuotes, DropDash, KeyText, IsKey, IsId;
    StepKey("pattern");
    QuotedText(x);
    var q, line := "'" + x + "'", "    - pattern: '" + x + "'";
    assert line == "    " + "- " + "pattern" + ": " + q;
    ItemLine("    ", "pattern", q, line);
    DetLine(InDet(f, det, Some(key)), line, 4, "- " + KeyText("pattern", q));
    assert StartsWith("- " + KeyText("pattern", q), "- ");
  }

  lemma LinesLine(f: Fields, det: map<string, Json>, key: string, items: seq<Json>, o: map<string, Json>, n: nat)
    requires key in det && det[key] == Arr(items) && |items| > 0 && items[|items| - 1] == Obj(o) && n > 0
    ensures ReadLine(InDet(f, det, Some(key)), "      lines: " + Decimal(n))
         == InDet(f, det[key := Arr(items[|items| - 1 := Obj(o["lines" := Num(n)])])], Some(key))
  {
    hide KvMatch, TrimEnd, Trim, Indent, ReadLine, DropDash, KeyText, IsKey, IsId, Decimal, ParseInt;
    StepKey("lines");
    DecimalIsValue(n);
    ParseDecimal(n);
    var line := "      lines: " + Decimal(n);
    assert line == "      " + "lines" + ": " + Decimal(n);
    KeyLine("      ", "lines", Decimal(n), line);
    DetLine(InDet(f, det, Some(key)), line, 6, KeyText("lines", Decimal(n)));
  }

  lemma ReadsPattern(f: Fields, det: map<string, Json>, key: string, items: seq<Json>, p: Pattern)
    requires key in det && det[key] == Arr(items) && PatternGood(p)
    ensures ReadLines(InDet(f, det, Some(key)), PrintPattern(p)) == InDet(f, det[key := Arr(items + [PatternJson(p)])], Some(key))
  {
    hide ReadLine, ReadLines, Decimal;
    var s := InDet(f, det, Some(key));
    match p {
      case Regex(x) => {
        PatternLine(f, det, key, items, x);
        ReadOne(s, "    - '" + x + "'");
      }
      case Windowed(x, lines) => {
        WindowLine(f, det, key, items, x);
        var head := "    - pattern: '" + x + "'";
        if lines.None? {
          assert PrintPattern(p) == [head];
          ReadOne(s, head);
        } else {
          var o := map["pattern" := Str(x)];
          var more := items + [Obj(o)];
          var det' := det[key := Arr(more)];
          var tail := "      lines: " + Decimal(lines.value);
          ReadHead(s, head, [tail]);
          ReadOne(InDet(f, det', Some(key)), tail);
          LinesLine(f, det', key, more, o, lines.value);
          assert more[|more| - 1 := PatternJson(p)] == items + [PatternJson(p)];
          assert det'[key := Arr(items + [PatternJson(p)])] == det[key := Arr(items + [PatternJson(p)])];
        }
      }
    }
  }

  lemma {:induction false} ReadsPatterns(f: Fields, det: map<string, Json>, key: string, ps: seq<Pattern>)
    requires PatternsGood(ps)
    ensures ReadLines(InDet(f, det[key := Arr([])], Some(key)), PrintPatterns(ps))
         == InDet(f, det[key := Arr(PatternsJson(ps))], Some(key))
  {
    hide ReadLine, ReadLines, PatternGood, PatternJson, PrintPattern;
    var p := InDet(f, det[key := Arr([])], Some(key));
    if |ps| == 0 {
      assert PatternsJson(ps) == [];
      ReadNone(p);
    } else {
      var rest, last := ps[..|ps| - 1], ps[|ps| - 1];
      ReadsPatterns(f, det, key, rest);
      ReadAppends(p, PrintPatterns(rest), PrintPattern(last));
      var det' := det[key := Arr(PatternsJson(rest))];
      ReadsPattern(f, det', key, PatternsJson(rest), last);
      assert PatternsJson(ps) == PatternsJson(rest) + [PatternJson(last)];
      assert det'[key := Arr(PatternsJson(ps))] == det[key := Arr(PatternsJson(ps))];
    }
  }

  /** A state of the section whatever list was last opened. */
  ghost predicate DetRead(f: Fields, det: map<string, Json>, p: State) {
    exists list :: p == InDet(f, det, list)
  }

  lemma ReadsList(f: Fields, det: map<string, Json>, p: State, key: string, ps: seq<Pattern>)
    requires DetRead(f, det, p) && PatternsGood(ps) && key in LISTS && key in DET_KEYS
    ensures DetRead(f, WithList(det, key, ps), ReadLines(p, PrintPatternList(key, ps)))
  {
    hide ReadLine, ReadLines, PatternGood, PatternJson, PrintPattern, PrintPatterns, PatternsJson, IsKey, StripQuotes;
    var list :| p == InDet(f, det, list);
    if |ps| == 0 {
      ReadNone(p);
    } else {
      DetKey(key);
      var line := "  " + key + ":";
      DetField(f, det, list, key, "", line);
      ReadHead(p, line, PrintPatterns(ps));
      ReadsPatterns(f, det, key, ps);
    }
  }

  lemma ReadsNumber(f: Fields, det: map<string, Json>, p: State, key: string, n: Option<nat>)
    requires DetRead(f, det, p) && key in NUMERIC && key in DET_KEYS
    ensures DetRead(f, WithNumber(det, key, n), ReadLines(p, PrintNumber(key, n)))
  {
    hide ReadLine, ReadLines, IsKey, StripQuotes, Decimal, ParseInt, OneLine, Trimmed;
    var list :| p == InDet(f, det, list);
    match n {
      case None => ReadNone(p);
      case Some(k) => {
        DetKey(key);
        var line := "  " + key + ": " + Decimal(k);
        DecimalIsValue(k);
        ParseDecimal(k);
        NotQuoted(k);
        DetField(f, det, list, key, Decimal(k), line);
        ReadOne(p, line);
        assert DetectionField(p, key, Decimal(k)) == InDet(f, det[key := Num(k)], None);
      }
    }
  }

  lemma NotQuoted(n: nat)
    ensures StripQuotes(Decimal(n)) == Decimal(n)
  {
    assert IsDigit(Decimal(n)[0]);
  }

  lemma ReadsContext(f: Fields, det: map<string, Json>, p: State, x: string)
    requires DetRead(f, det, p) && OneLine(x)
    ensures DetRead(f, WithText(det, "contextPattern", x),
                    ReadLines(p, if x != "" then ["  contextPattern: '" + x + "'"] else []))
  {
    hide ReadLine, ReadLines, IsKey, StripQuotes, IsText;
    var list :| p == InDet(f, det, list);
    if x == "" {
      ReadNone(p);
    } else {
      DetKey("contextPattern");
      QuotedText(x);
      var line := "  contextPattern: '" + x + "'";
      assert line == "  " + "contextPattern" + ": " + ("'" + x + "'");
      DetField(f, det, list, "contextPattern", "'" + x + "'", line);
      ReadOne(p, line);
      assert DetectionField(p, "contextPattern", x) == InDet(f, det["contextPattern" := Str(x)], None);
    }
  }

  lemma BoolText(b: bool)
    ensures var v := if b then "true" else "false"; IsText(v) && StripQuotes(v) == v && (v == "true" <==> b)
  {
    var v := if b then "true" else "false";
    assert v[0] != '\'';
    assert "true"[0] != "false"[0];
  }

  lemma ReadsRecover(f: Fields, det: map<string, Json>, p: State, b: bool)
    requires DetRead(f, det, p)
    ensures DetRead(f, det["autoRecover" := Bool(b)], ReadLines(p, ["  autoRecover: " + if b then "true" else "false"]))
  {
    hide ReadLine, ReadLines, IsKey, StripQuotes, OneLine, Trimmed;
    var list :| p == InDet(f, det, list);
    var v := if b then "true" else "false";
    var line := "  autoRecover: " + v;
    DetKey("autoRecover");
    BoolText(b);
    assert line == "  " + "autoRecover" + ": " + v;
    DetField(f, det, list, "autoRecover", v, line);
    ReadOne(p, line);
    assert DetectionField(p, "autoRecover", v) == InDet(f, det["autoRecover" := Bool(b)], None);
  }

  lemma ReadsLists(f: Fields, d: Detection)
    requires DetectionGood(d)
    ensures DetRead(f, WithText(WithList(WithList(map[], "idlePatterns", d.idle), "activePatterns", d.active), "contextPattern", d.context),
      ReadLines(InDet(f, map[], None),
        PrintPatternList("idlePatterns", d.idle) + PrintPatternList("activePatterns", d.active)
        + (if d.context != "" then ["  contextPattern: '" + d.context + "'"] else [])))
  {
    hide ReadLine, ReadLines, PatternsGood, PrintPatternList, WithList, OneLine, WithText;
    var p := InDet(f, map[], None);
    assert DetRead(f, map[], p);
    var a, b := PrintPatternList("idlePatterns", d.idle), PrintPatternList("activePatterns", d.active);
    var c := if d.context != "" then ["  contextPattern: '" + d.context + "'"] else [];
    assert DET_KEYS[0] == "idlePatterns" && DET_KEYS[1] == "activePatterns";
    ReadsList(f, map[], p, "idlePatterns", d.idle);
    var d1 := WithList(map[], "idlePatterns", d.idle);
    ReadAppends(p, a, b);
    ReadsList(f, d1, ReadLines(p, a), "activePatterns", d.active);
    var d2 := WithList(d1, "activePatterns", d.active);
    ReadAppends(p, a + b, c);
    ReadsContext(f, d2, ReadLines(p, a + b), d.context);
  }

  lemma ReadsNumbers(f: Fields, det: map<string, Json>, p: State, d: Detection)
    requires DetRead(f, det, p)
    ensures DetRead(f, WithNumber(WithNumber(WithNumber(det, "idleThreshold", d.idleThreshold), "activeGraceMs", d.activeGraceMs),
                                  "snapshotLines", d.snapshotLines),
      ReadLines(p, PrintNumber("idleThreshold", d.idleThreshold) + PrintNumber("activeGraceMs", d.activeGraceMs)
                   + PrintNumber("snapshotLines", d.snapshotLines)))
  {
    hide ReadLine, ReadLines, DetRead, PrintNumber, WithNumber;
    assert DET_KEYS[3] == "idleThreshold" && DET_KEYS[4] == "activeGraceMs" && DET_KEYS[5] == "snapshotLines";
    var a, b := PrintNumber("idleThreshold", d.idleThreshold), PrintNumber("activeGraceMs", d.activeGraceMs);
    var c := PrintNumber("snapshotLines", d.snapshotLines);
    ReadsNumber(f, det, p, "idleThreshold", d.idleThreshold);
    var d1 := WithNumber(det, "idleThreshold", d.idleThreshold);
    ReadAppends(p, a, b);
    ReadsNumber(f, d1, ReadLines(p, a), "activeGraceMs", d.activeGraceMs);
    var d2 := WithNumber(d1, "activeGraceMs", d.activeGraceMs);
    ReadAppends(p, a + b, c);
    ReadsNumber(f, d2, ReadLines(p, a + b), "snapshotLines", d.snapshotLines);
  }

  lemma ReadsDetection(f: Fields, d: Detection)
    requires DetectionGood(d)
    ensures DetRead(f, DetectionProps(d), ReadLines(InDet(f, map[], None), PrintDetection(d)))
  {
    hide ReadLine, ReadLines, DetRead, PrintNumber, WithNumber, WithList, WithText, PrintPatternList, DetectionGood;
    var p := InDet(f, map[], None);
    var a := PrintPatternList("idlePatterns", d.idle) + PrintPatternList("activePatterns", d.active)
      + (if d.context != "" then ["  contextPattern: '" + d.context + "'"] else []);
    var b := PrintNumber("idleThreshold", d.idleThreshold) + PrintNumber("activeGraceMs", d.activeGraceMs)
      + PrintNumber("snapshotLines", d.snapshotLines);
    ReadsLists(f, d);
    var d1 := WithText(WithList(WithList(map[], "idlePatterns", d.idle), "activePatterns", d.active), "contextPattern", d.context);
    ReadAppends(p, a, b);
    ReadsNumbers(f, d1, ReadLines(p, a), d);
    match d.autoRecover {
      case None => assert PrintDetection(d) == a + b;
      case Some(r) => {
        var c := ["  autoRecover: " + if r then "true" else "false"];
        assert PrintDetection(d) == a + b + c;
        ReadAppends(p, a + b, c);
        ReadsRecover(f, WithNumber(WithNumber(WithNumber(d1, "idleThreshold", d.idleThreshold), "activeGraceMs", d.activeGraceMs),
                                   "snapshotLines", d.snapshotLines), ReadLines(p, a + b), r);
      }
    }
  }

  function DetFields(f: Fields, d: Option<Detection>): Fields {
    match d case None => f case Some(det) => f["detection" := Encoded(Obj(DetectionProps(det)))]
  }

  lemma DetSettles(f: Fields, det: map<string, Json>, p: State)
    requires DetRead(f, det, p)
    ensures Reaches(p, f["detection" := Encoded(Obj(det))])
  {
  }

  lemma ReadsDetectionSection(p: State, f: Fields, d: Option<Detection>)
    requires Reaches(p, f) && (d.Some? ==> DetectionGood(d.value))
    ensures Reaches(ReadLines(p, PrintDetectionSection(d)), DetFields(f, d))
  {
    hide ReadLine, ReadLines, Reaches, DetectionGood, DetectionProps, PrintDetection, DetRead;
    match d {
      case None => ReadNone(p);
      case Some(det) => {
        assert IsKey("detection") && HookField("detection").None?;
        TopLine(p, f, "detection", "", "detection:");
        ReadHead(p, "detection:", PrintDetection(det));
        ReadsDetection(f, det);
        DetSettles(f, DetectionProps(det), ReadLines(InDet(f, map[], None), PrintDetection(det)));
      }
    }
  }
}
