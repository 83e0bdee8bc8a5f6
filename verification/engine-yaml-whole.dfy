/**
 * The sections put together: printing a whole configuration, joining its lines, splitting the text
 * again and parsing it gives the same fields. Then the inputs on which that stops: quoted badges,
 * numeric capture patterns, buttons named like an inherited property, and an empty engine name.
 */
module EngineYamlWhole {
  import opened Options
  import opened JsText
  import opened EngineYaml
  import opened EngineYamlLines
  import opened EngineYamlRoundTrip
  import opened EngineYamlSections

  // ── lines and text ──

  lemma TextHasNoBreak(v: string)
    ensures OneLine(v) || IsKey(v) || IsId(v) ==> NoBreak(v)
  {
    if IsId(v) {
      assert forall i :: 0 <= i < |v| ==> IsName(v[i]);
    }
    if IsKey(v) {
      assert forall i :: 0 <= i < |v| ==> IsWord(v[i]);
    }
  }

  lemma NumberHasNoBreak(n: nat)
    ensures NoBreak(Decimal(n))
  {
    DecimalIsValue(n);
    TextHasNoBreak(Decimal(n));
  }

  lemma CaptureHasNoBreaks(lines: nat, regex: string, name: string)
    requires NoBreak(regex) && NoBreak(name)
    ensures NoBreaks(PrintStep(Capture(lines, regex, name)))
  {
    hide Decimal, NoBreaks;
    NumberHasNoBreak(lines);
    NoBreaksJoin(["  - capture:"], if lines != 0 then ["      lines: " + Decimal(lines)] else []) by {
      OneHasNoBreak("  - capture:");
      OneHasNoBreak("      lines: " + Decimal(lines));
      NoneHasNoBreak();
    }
    var a := ["  - capture:"] + if lines != 0 then ["      lines: " + Decimal(lines)] else [];
    NoBreaksJoin(a, if regex != "" then ["      regex: " + regex] else []) by {
      OneHasNoBreak("      regex: " + regex);
      NoneHasNoBreak();
    }
    var b := a + if regex != "" then ["      regex: " + regex] else [];
    NoBreaksJoin(b, if name != "" then ["      var: " + name] else []) by {
      OneHasNoBreak("      var: " + name);
      NoneHasNoBreak();
    }
  }

  lemma OneHasNoBreak(line: string)
    requires NoBreak(line)
    ensures NoBreaks([line])
  {
  }

  lemma NoneHasNoBreak()
    ensures NoBreaks([])
  {
  }

  lemma StepHasNoBreaks(s: Step)
    requires StepGood(s)
    ensures NoBreaks(PrintStep(s))
  {
    hide Decimal, IsNumeric, OneLine;
    match s {
      case Shell(command) => TextHasNoBreak(command);
      case Wait(ms) => NumberHasNoBreak(ms);
      case Capture(lines, regex, name) => {
        CaptureTextsHaveNoBreak(s);
        CaptureHasNoBreaks(lines, regex, name);
      }
      case Keystroke(key) => TextHasNoBreak(key);
    }
  }

  lemma CaptureTextsHaveNoBreak(s: Step)
    requires StepGood(s) && s.Capture?
    ensures NoBreak(s.regex) && NoBreak(s.name)
  {
    hide IsNumeric, OneLine;
    TextHasNoBreak(s.regex);
    TextHasNoBreak(s.name);
  }

  lemma {:induction false} StepsHaveNoBreaks(steps: seq<Step>)
    requires StepsGood(steps)
    ensures NoBreaks(PrintSteps(steps))
  {
    hide StepGood, PrintStep, NoBreak;
    if |steps| > 0 {
      StepsHaveNoBreaks(steps[..|steps| - 1]);
      StepHasNoBreaks(steps[|steps| - 1]);
    }
  }

  lemma HookHasNoBreaks(key: string, h: Option<Hook>)
    requires HookGood(h) && IsKey(key)
    ensures NoBreaks(PrintHook(key, h))
  {
    hide StepsGood, PrintSteps, OneLine, IsKey;
    TextHasNoBreak(key);
    match h {
      case None =>
      case Some(Pipeline(steps)) => StepsHaveNoBreaks(steps);
      case Some(Inline(text)) => TextHasNoBreak(text);
    }
  }

  lemma {:induction false} HooksHaveNoBreaks(hooks: seq<Option<Hook>>)
    requires |hooks| <= |HOOKS| && forall h :: h in hooks ==> HookGood(h)
    ensures NoBreaks(PrintHooks(hooks))
  {
    hide HookGood, PrintHook, NoBreak, IsKey, HookField;
    if |hooks| > 0 {
      HooksHaveNoBreaks(hooks[..|hooks| - 1]);
      HookKeys(|hooks| - 1);
      HookHasNoBreaks(HOOKS[|hooks| - 1], hooks[|hooks| - 1]);
    }
  }

  lemma {:induction false} ActionStepsHaveNoBreaks(steps: seq<ActionStep>)
    requires forall s :: s in steps ==> ActionStepGood(s)
    ensures NoBreaks(PrintActionSteps(steps))
  {
    hide OneLine;
    if |steps| > 0 {
      var s := steps[|steps| - 1];
      assert ActionStepGood(s);
      ActionStepsHaveNoBreaks(steps[..|steps| - 1]);
      match s {
        case Press(key) => TextHasNoBreak(key);
        case Run(command) => TextHasNoBreak(command);
      }
    }
  }

  lemma {:induction false} ActionsHaveNoBreaks(actions: seq<Action>)
    requires forall a :: a in actions ==> ActionGood(a)
    ensures NoBreaks(PrintActions(actions))
  {
    hide IsId, ActionStepGood, PrintActionSteps;
    if |actions| > 0 {
      var a := actions[|actions| - 1];
      assert ActionGood(a);
      ActionsHaveNoBreaks(actions[..|actions| - 1]);
      TextHasNoBreak(a.name);
      ActionStepsHaveNoBreaks(a.steps);
    }
  }

  lemma OptionalLine(v: string, line: string)
    requires NoBreak(line)
    ensures NoBreaks(if v != "" then [line] else [])
  {
  }

  lemma IndicatorTextsHaveNoBreak(d: Indicator)
    requires IndicatorGood(d)
    ensures NoBreak(d.id) && NoBreak(d.regex) && NoBreak(d.badge) && NoBreak(d.style)
    ensures d.actions.Some? ==> NoBreaks(PrintActions(d.actions.value))
  {
    hide IsId, OneLine, PrintActions, ActionGood, Quoted, Trimmed;
    TextHasNoBreak(d.id);
    TextHasNoBreak(d.regex);
    TextHasNoBreak(d.badge);
    TextHasNoBreak(d.style);
    if d.actions.Some? {
      ActionsHaveNoBreaks(d.actions.value);
    }
  }

  lemma IndicatorHasNoBreaks(d: Indicator)
    requires IndicatorGood(d)
    ensures NoBreaks(PrintIndicator(d))
  {
    hide IndicatorGood, NoBreaks, PrintActions;
    IndicatorTextsHaveNoBreak(d);
    var a := ["  " + d.id + ":"];
    var b := if d.regex != "" then ["    regex: '" + d.regex + "'"] else [];
    var c := if d.badge != "" then ["    badge: " + d.badge] else [];
    var e := if d.style != "" then ["    style: " + d.style] else [];
    OneHasNoBreak(a[0]);
    OptionalLine(d.regex, "    regex: '" + d.regex + "'");
    OptionalLine(d.badge, "    badge: " + d.badge);
    OptionalLine(d.style, "    style: " + d.style);
    NoBreaksJoin(a, b);
    NoBreaksJoin(a + b, c);
    NoBreaksJoin(a + b + c, e);
    match d.actions {
      case None => assert PrintIndicator(d) == a + b + c + e;
      case Some(actions) => {
        OneHasNoBreak("    actions:");
        NoBreaksJoin(["    actions:"], PrintActions(actions));
        NoBreaksJoin(a + b + c + e, ["    actions:"] + PrintActions(actions));
      }
    }
  }

  lemma {:induction false} IndicatorsHaveNoBreaks(defs: seq<Indicator>)
    requires forall d :: d in defs ==> IndicatorGood(d)
    ensures NoBreaks(PrintIndicators(defs))
  {
    hide IndicatorGood, PrintIndicator, NoBreak;
    if |defs| > 0 {
      IndicatorsHaveNoBreaks(defs[..|defs| - 1]);
      IndicatorHasNoBreaks(defs[|defs| - 1]);
    }
  }

  lemma {:induction false} PatternsHaveNoBreaks(ps: seq<Pattern>)
    requires PatternsGood(ps)
    ensures NoBreaks(PrintPatterns(ps))
  {
    hide PatternGood, PrintPattern, NoBreak;
    if |ps| > 0 {
      PatternsHaveNoBreaks(ps[..|ps| - 1]);
      PatternHasNoBreaks(ps[|ps| - 1]);
    }
  }

  lemma PatternHasNoBreaks(p: Pattern)
    requires PatternGood(p)
    ensures NoBreaks(PrintPattern(p))
  {
    hide OneLine, Decimal;
    TextHasNoBreak(p.pattern);
    if p.Windowed? && p.lines.Some? {
      NumberHasNoBreak(p.lines.value);
    }
  }

  lemma PatternListHasNoBreaks(key: string, ps: seq<Pattern>)
    requires PatternsGood(ps) && IsKey(key)
    ensures NoBreaks(PrintPatternList(key, ps))
  {
    hide PrintPatterns, PatternsGood, IsKey;
    TextHasNoBreak(key);
    PatternsHaveNoBreaks(ps);
  }

  lemma PrintNumberHasNoBreaks(key: string, n: Option<nat>)
    requires IsKey(key)
    ensures NoBreaks(PrintNumber(key, n))
  {
    hide Decimal, IsKey;
    TextHasNoBreak(key);
    if n.Some? {
      NumberHasNoBreak(n.value);
    }
  }

  lemma NoBreaksJoin(a: seq<string>, b: seq<string>)
    requires NoBreaks(a) && NoBreaks(b)
    ensures NoBreaks(a + b)
  {
  }

  lemma DetectionHasNoBreaks(d: Detection)
    requires DetectionGood(d)
    ensures NoBreaks(PrintDetection(d))
  {
    hide PrintPatternList, PrintNumber, IsKey, NoBreaks, OneLine, PatternsGood;
    assert forall i :: 0 <= i < |DET_KEYS| ==> IsKey(DET_KEYS[i]) by {
      forall i | 0 <= i < |DET_KEYS| ensures IsKey(DET_KEYS[i]) { DetKey(DET_KEYS[i]); }
    }
    var a, b := PrintPatternList("idlePatterns", d.idle), PrintPatternList("activePatterns", d.active);
    var c := if d.context != "" then ["  contextPattern: '" + d.context + "'"] else [];
    var e, f, g := PrintNumber("idleThreshold", d.idleThreshold), PrintNumber("activeGraceMs", d.activeGraceMs),
      PrintNumber("snapshotLines", d.snapshotLines);
    var r := match d.autoRecover case None => [] case Some(x) => ["  autoRecover: " + if x then "true" else "false"];
    assert DET_KEYS[0] == "idlePatterns" && DET_KEYS[1] == "activePatterns" && DET_KEYS[3] == "idleThreshold"
           && DET_KEYS[4] == "activeGraceMs" && DET_KEYS[5] == "snapshotLines";
    PatternListHasNoBreaks("idlePatterns", d.idle);
    PatternListHasNoBreaks("activePatterns", d.active);
    ContextHasNoBreak(d.context);
    PrintNumberHasNoBreaks("idleThreshold", d.idleThreshold);
    PrintNumberHasNoBreaks("activeGraceMs", d.activeGraceMs);
    PrintNumberHasNoBreaks("snapshotLines", d.snapshotLines);
    BoolsHaveNoBreaks(d.autoRecover);
    NoBreaksJoin(a, b);
    NoBreaksJoin(a + b, c);
    NoBreaksJoin(a + b + c, e);
    NoBreaksJoin(a + b + c + e, f);
    NoBreaksJoin(a + b + c + e + f, g);
    NoBreaksJoin(a + b + c + e + f + g, r);
  }

  lemma ContextHasNoBreak(x: string)
    requires OneLine(x)
    ensures NoBreaks(if x != "" then ["  contextPattern: '" + x + "'"] else [])
  {
    TextHasNoBreak(x);
  }

  lemma BoolsHaveNoBreaks(r: Option<bool>)
    ensures NoBreaks(match r case None => [] case Some(x) => ["  autoRecover: " + if x then "true" else "false"])
  {
  }

  lemma {:induction false} ButtonsHaveNoBreaks(buttons: seq<Button>)
    requires forall b :: b in buttons ==> ButtonName(b.name) && StepsGood(b.steps)
    ensures NoBreaks(PrintButtons(buttons))
  {
    hide StepsGood, PrintSteps, IsKey, HookField;
    if |buttons| > 0 {
      var b := buttons[|buttons| - 1];
      ButtonsHaveNoBreaks(buttons[..|buttons| - 1]);
      TextHasNoBreak(b.name);
      StepsHaveNoBreaks(b.steps);
    }
  }

  lemma {:induction false} EnvHasNoBreaks(env: seq<EnvVar>)
    requires forall v :: v in env ==> IsKey(v.name) && IsText(v.value)
    ensures NoBreaks(PrintEnv(env))
  {
    hide IsKey, OneLine;
    if |env| > 0 {
      var v := env[|env| - 1];
      EnvHasNoBreaks(env[..|env| - 1]);
      TextHasNoBreak(v.name);
      TextHasNoBreak(v.value);
    }
  }

  lemma HeadHasNoBreaks(c: Config)
    requires ConfigGood(c)
    ensures NoBreaks(PrintHead(c))
  {
    hide OneLine, Trimmed, HookGood, IndicatorGood, DetectionGood, ButtonsGood, EnvGood;
    TextHasNoBreak(c.engine);
    TextHasNoBreak(c.model);
    TextHasNoBreak(c.thinking);
    TextHasNoBreak(c.permissions);
  }

  lemma SectionsHaveNoBreaks(c: Config)
    requires ConfigGood(c)
    ensures NoBreaks(PrintIndicatorSection(c.indicators)) && NoBreaks(PrintDetectionSection(c.detection))
    ensures NoBreaks(PrintEnvSection(c.env))
  {
    hide HookGood, IndicatorGood, DetectionGood, ButtonsGood, PrintIndicators, PrintDetection, PrintEnv, IsKey, IsText, IsValue,
         IsOptional;
    IndicatorsHaveNoBreaks(c.indicators);
    if c.detection.Some? {
      DetectionHasNoBreaks(c.detection.value);
    }
    EnvHasNoBreaks(c.env);
  }

  lemma ButtonsPart(c: Config)
    requires ConfigGood(c)
    ensures Printable(c) && forall b :: b in c.buttons ==> ButtonName(b.name) && StepsGood(b.steps)
  {
    hide HookGood, IndicatorGood, DetectionGood, EnvGood, IsValue, IsOptional, ButtonName, StepsGood;
  }

  lemma PrintedLinesHaveNoBreaks(c: Config)
    requires ConfigGood(c)
    ensures Printable(c) && NoBreaks(PrintLines(c)) && |PrintLines(c)| > 0
  {
    hide NoBreaks, PrintHooks, PrintIndicatorSection, PrintDetectionSection, PrintButtons, PrintEnvSection, HookGood,
         IndicatorGood, DetectionGood, ButtonsGood, EnvGood, IsValue, IsOptional;
    ButtonsPart(c);
    HeadHasNoBreaks(c);
    HooksHaveNoBreaks(c.hooks);
    SectionsHaveNoBreaks(c);
    ButtonsHaveNoBreaks(c.buttons);
    var a, b, d, e, g, h := PrintHead(c), PrintHooks(c.hooks), PrintIndicatorSection(c.indicators),
      PrintDetectionSection(c.detection), PrintButtons(c.buttons), PrintEnvSection(c.env);
    NoBreaksJoin(a, b);
    NoBreaksJoin(a + b, d);
    NoBreaksJoin(a + b + d, e);
    NoBreaksJoin(a + b + d + e, g);
    NoBreaksJoin(a + b + d + e + g, h);
  }

  // ── all sections ──

  function AllFields(f: Fields, c: Config): Fields
    requires |c.hooks| == |HOOKS|
  {
    EnvFields(ButtonFields(DetFields(DefFields(HookFields(HeadFields(f, c), c.hooks), c.indicators), c.detection), c.buttons), c.env)
  }

  lemma ReadsAll(name: string, c: Config)
    requires ConfigGood(c)
    ensures Printable(c) && Reaches(ReadLines(Start(name), PrintLines(c)), AllFields(Start(name).fields, c))
  {
    hide ReadLines, Reaches, PrintHead, PrintHooks, PrintIndicatorSection, PrintDetectionSection, PrintButtons, PrintEnvSection,
         HookGood, IndicatorGood, DetectionGood, EnvGood, IsValue, IsOptional, HeadFields, HookFields, DefFields, DetFields,
         ButtonFields, EnvFields, ButtonsGood, Start;
    ButtonsPart(c);
    var p, f := Start(name), Start(name).fields;
    var a, b, d, e, g, h := PrintHead(c), PrintHooks(c.hooks), PrintIndicatorSection(c.indicators),
      PrintDetectionSection(c.detection), PrintButtons(c.buttons), PrintEnvSection(c.env);
    StartSettles(name);
    ReadsHead(p, f, c);
    var f1 := HeadFields(f, c);
    ReadAppends(p, a, b);
    ReadsHooks(ReadLines(p, a), f1, c.hooks);
    var f2 := HookFields(f1, c.hooks);
    ReadAppends(p, a + b, d);
    ReadsIndicatorSection(ReadLines(p, a + b), f2, c.indicators);
    var f3 := DefFields(f2, c.indicators);
    ReadAppends(p, a + b + d, e);
    ReadsDetectionSection(ReadLines(p, a + b + d), f3, c.detection);
    var f4 := DetFields(f3, c.detection);
    ReadAppends(p, a + b + d + e, g);
    ReadsButtons(ReadLines(p, a + b + d + e), f4, c.buttons);
    var f5 := ButtonFields(f4, c.buttons);
    ReadAppends(p, a + b + d + e + g, h);
    ReadsEnv(ReadLines(p, a + b + d + e + g), f5, c.env);
  }

  lemma StartSettles(name: string)
    ensures Reaches(Start(name), Start(name).fields)
  {
  }

  // ── the fields of a configuration ──

  /** A text field is there with its value, or not at all. */
  predicate HasText(f: Fields, key: string, v: string) {
    if v == "" then key !in f else key in f && f[key] == Plain(v)
  }

  /** Every field that the parser must return for `c`, and no other. */
  ghost predicate Holds(f: Fields, name: string, c: Config)
    requires |c.hooks| == |HOOKS|
  {
    && HasText(f, "engine", c.engine) && HasText(f, "model", c.model)
    && HasText(f, "thinking", c.thinking) && HasText(f, "permissions", c.permissions)
    && "name" in f && f["name"] == Plain(name)
    && (forall i :: 0 <= i < |HOOKS| ==> HOOK_FIELDS[i] in f && f[HOOK_FIELDS[i]] == HookValue(c.hooks[i]))
    && (if |c.indicators| == 0 then "indicators" !in f
        else "indicators" in f && f["indicators"] == Encoded(Arr(IndicatorsJson(c.indicators))))
    && (match c.detection
        case None => "detection" !in f
        case Some(d) => "detection" in f && f["detection"] == Encoded(Obj(DetectionProps(d))))
    && (if |c.env| == 0 then "launchEnv" !in f else "launchEnv" in f && f["launchEnv"] == EnvVars(EnvMap(c.env)))
    && "customButtons" in f
    && f["customButtons"] == (if |c.buttons| == 0 then Null else Encoded(Obj(ButtonProps(c.buttons))))
    && forall k :: k in f ==> k in FIXED || k in HOOK_FIELDS
  }

  const FIXED: set<string> :=
    {"name", "engine", "model", "thinking", "permissions", "indicators", "detection", "launchEnv", "customButtons"}

  lemma {:induction false} HookFieldsElsewhere(f: Fields, hooks: seq<Option<Hook>>, k: string)
    requires |hooks| <= |HOOKS| && k !in HOOK_FIELDS
    ensures k in HookFields(f, hooks) <==> k in f
    ensures k in f ==> HookFields(f, hooks)[k] == f[k]
  {
    if |hooks| > 0 {
      HookFieldsElsewhere(f, hooks[..|hooks| - 1], k);
    }
  }

  lemma HookFieldNamesDiffer(i: nat, j: nat)
    requires i < |HOOKS| && j < |HOOKS| && HOOK_FIELDS[i] == HOOK_FIELDS[j]
    ensures i == j
  {
    assert "hookStart"[4] == 'S' && "hookResume"[4] == 'R' && "hookCompact"[4] == 'C' && "hookExit"[4] == 'E'
           && "hookInterrupt"[4] == 'I' && "hookReload"[4] == 'R' && "hookSubmit"[4] == 'S';
    assert "hookStart"[5] == 't' && "hookSubmit"[5] == 'u' && "hookResume"[6] == 's' && "hookReload"[6] == 'l';
  }

  lemma {:induction false} HookFieldsAt(f: Fields, hooks: seq<Option<Hook>>, i: nat)
    requires |hooks| <= |HOOKS| && i < |HOOKS| && HOOK_FIELDS[i] !in f
    ensures HOOK_FIELDS[i] in HookFields(f, hooks) <==> i < |hooks| && hooks[i].Some?
    ensures i < |hooks| && hooks[i].Some? ==> HookFields(f, hooks)[HOOK_FIELDS[i]] == HookValue(hooks[i])
  {
    hide HookValue;
    if |hooks| > 0 {
      var n := |hooks| - 1;
      HookFieldsAt(f, hooks[..n], i);
      if HOOK_FIELDS[i] == HOOK_FIELDS[n] {
        HookFieldNamesDiffer(i, n);
      }
    }
  }

  lemma {:induction false} ButtonFieldsElsewhere(f: Fields, buttons: seq<Button>, k: string)
    requires !IsCustom(k)
    ensures k in ButtonFields(f, buttons) <==> k in f
    ensures k in f ==> ButtonFields(f, buttons)[k] == f[k]
  {
    hide StepsJson;
    if |buttons| > 0 {
      ButtonFieldsElsewhere(f, buttons[..|buttons| - 1], k);
      CustomIsCustom(buttons[|buttons| - 1].name);
    }
  }

  lemma CustomIsCustom(n: string)
    ensures IsCustom(CUSTOM + n) && (CUSTOM + n)[|CUSTOM|..] == n
  {
  }

  lemma SameCustom(m: string, n: string)
    ensures CUSTOM + m == CUSTOM + n <==> m == n
  {
    CustomIsCustom(m);
    CustomIsCustom(n);
  }

  lemma {:induction false} ButtonFieldsAt(f: Fields, buttons: seq<Button>, n: string)
    requires CUSTOM + n !in f
    ensures CUSTOM + n in ButtonFields(f, buttons) <==> n in ButtonProps(buttons)
    ensures n in ButtonProps(buttons) ==> ButtonFields(f, buttons)[CUSTOM + n] == Encoded(ButtonProps(buttons)[n])
  {
    hide StepsJson;
    if |buttons| > 0 {
      ButtonFieldsAt(f, buttons[..|buttons| - 1], n);
      SameCustom(n, buttons[|buttons| - 1].name);
    }
  }

  lemma {:induction false} ButtonPropsNames(buttons: seq<Button>, n: string)
    ensures n in ButtonProps(buttons) <==> exists b :: b in buttons && b.name == n
    ensures ButtonProps(buttons) == map[] <==> |buttons| == 0
  {
    hide StepsJson;
    if |buttons| > 0 {
      var rest, b := buttons[..|buttons| - 1], buttons[|buttons| - 1];
      ButtonPropsNames(rest, n);
      assert buttons == rest + [b];
      assert b.name in ButtonProps(buttons);
    }
  }

  lemma CustomNameIn(fields: Fields, n: string)
    ensures n in CustomNames(fields) <==> CUSTOM + n in fields && fields[CUSTOM + n].Encoded? && n != PROTO
  {
    CustomIsCustom(n);
    if CUSTOM + n in fields && fields[CUSTOM + n].Encoded? && n != PROTO {
      var k := CUSTOM + n;
      assert k[|CUSTOM|..] == n;
    }
  }

  lemma NotInherited(buttons: seq<Button>, n: string)
    requires forall b :: b in buttons ==> ButtonName(b.name)
    requires n in ButtonProps(buttons)
    ensures n != PROTO
  {
    ButtonPropsNames(buttons, n);
    assert HookField(PROTO).Some?;
  }

  /** The gathered buttons are the configuration's. */
  lemma GatheredButtons(f: Fields, g: Fields, buttons: seq<Button>)
    requires forall k :: k in f ==> !IsCustom(k)
    requires forall b :: b in buttons ==> ButtonName(b.name)
    requires forall k :: IsCustom(k) ==> (k in g <==> k in ButtonFields(f, buttons))
    requires forall k :: IsCustom(k) && k in g ==> g[k] == ButtonFields(f, buttons)[k]
    ensures CustomButtons(g) == ButtonProps(buttons)
  {
    hide StepsJson, ButtonName, ButtonProps, ButtonFields, IsCustom;
    forall n ensures n in CustomNames(g) <==> n in ButtonProps(buttons) {
      CustomNameIn(g, n);
      CustomIsCustom(n);
      ButtonFieldsAt(f, buttons, n);
      if n in ButtonProps(buttons) {
        NotInherited(buttons, n);
      }
    }
    forall n | n in CustomNames(g) ensures CustomButtons(g)[n] == ButtonProps(buttons)[n] {
      CustomIsCustom(n);
      ButtonFieldsAt(f, buttons, n);
    }
  }

  lemma NotCustom(k: string)
    requires k in FIXED || k in HOOK_FIELDS
    ensures !IsCustom(k)
  {
    assert CUSTOM[0] == '_' && k[0] != '_';
  }

  lemma FixedIsNoHook(k: string)
    requires k in FIXED
    ensures k !in HOOK_FIELDS
  {
    assert forall h :: h in HOOK_FIELDS ==> h[0] == 'h';
    assert k[0] != 'h';
  }

  /** The fields before buttons and environment. */
  function Core(f: Fields, c: Config): Fields
    requires |c.hooks| == |HOOKS|
  {
    DetFields(DefFields(HookFields(HeadFields(f, c), c.hooks), c.indicators), c.detection)
  }

  predicate FixedKeys(f: Fields) {
    forall k :: k in f ==> k in FIXED || k in HOOK_FIELDS
  }

  lemma HeadHolds(name: string, c: Config)
    requires c.engine != ""
    ensures var f := HeadFields(Start(name).fields, c);
      && HasText(f, "engine", c.engine) && HasText(f, "model", c.model)
      && HasText(f, "thinking", c.thinking) && HasText(f, "permissions", c.permissions)
      && "name" in f && f["name"] == Plain(name)
      && "indicators" !in f && "detection" !in f && "launchEnv" !in f && "customButtons" !in f
      && forall k :: k in f ==> k in {"name", "engine", "model", "thinking", "permissions"}
  {
  }

  lemma {:induction false} HookFieldsKeys(f: Fields, hooks: seq<Option<Hook>>)
    requires |hooks| <= |HOOKS| && FixedKeys(f)
    ensures FixedKeys(HookFields(f, hooks))
  {
    if |hooks| > 0 {
      HookFieldsKeys(f, hooks[..|hooks| - 1]);
      assert HOOK_FIELDS[|hooks| - 1] in HOOK_FIELDS;
    }
  }

  lemma CoreHolds(name: string, c: Config, k: string)
    requires ConfigGood(c)
    requires k in FIXED
    ensures var f := Core(Start(name).fields, c);
      && (k == "engine" ==> HasText(f, "engine", c.engine)) && (k == "model" ==> HasText(f, "model", c.model))
      && (k == "thinking" ==> HasText(f, "thinking", c.thinking))
      && (k == "permissions" ==> HasText(f, "permissions", c.permissions))
      && (k == "name" ==> k in f && f[k] == Plain(name))
      && (k == "indicators" ==> if |c.indicators| == 0 then k !in f
                                else k in f && f[k] == Encoded(Arr(IndicatorsJson(c.indicators))))
      && (k == "detection" ==> match c.detection case None => k !in f
                                case Some(d) => k in f && f[k] == Encoded(Obj(DetectionProps(d))))
      && (k == "launchEnv" || k == "customButtons" ==> k !in f)
  {
    hide HeadFields, HookFields, HookGood, IndicatorGood, DetectionGood, ButtonsGood, EnvGood, IsOptional, IndicatorsJson,
         DetectionProps;
    var head := HeadFields(Start(name).fields, c);
    HeadHolds(name, c);
    FixedIsNoHook(k);
    HookFieldsElsewhere(head, c.hooks, k);
  }

  lemma CoreHooks(name: string, c: Config, i: nat)
    requires ConfigGood(c) && i < |HOOKS|
    ensures var f := Core(Start(name).fields, c);
      && (HOOK_FIELDS[i] in f <==> c.hooks[i].Some?)
      && (c.hooks[i].Some? ==> f[HOOK_FIELDS[i]] == HookValue(c.hooks[i]))
  {
    hide HeadFields, HookFields, HookGood, IndicatorGood, DetectionGood, ButtonsGood, EnvGood, IsOptional, IndicatorsJson,
         DetectionProps, HookValue;
    var head := HeadFields(Start(name).fields, c);
    HeadHolds(name, c);
    HookIsNotFixed(i);
    HookFieldsAt(head, c.hooks, i);
  }

  lemma HookIsNotFixed(i: nat)
    requires i < |HOOKS|
    ensures HOOK_FIELDS[i] !in FIXED && HOOK_FIELDS[i] in HOOK_FIELDS
  {
    if HOOK_FIELDS[i] in FIXED {
      FixedIsNoHook(HOOK_FIELDS[i]);
    }
  }

  lemma CoreKeys(name: string, c: Config)
    requires ConfigGood(c)
    ensures FixedKeys(Core(Start(name).fields, c))
  {
    hide HeadFields, HookFields, HookGood, IndicatorGood, DetectionGood, ButtonsGood, EnvGood, IsOptional, IndicatorsJson,
         DetectionProps;
    var head := HeadFields(Start(name).fields, c);
    HeadHolds(name, c);
    HookFieldsKeys(head, c.hooks);
  }

  lemma AllFieldsAt(f: Fields, c: Config, k: string)
    requires |c.hooks| == |HOOKS| && !IsCustom(k) && k != "launchEnv"
    ensures k in AllFields(f, c) <==> k in Core(f, c)
    ensures k in Core(f, c) ==> AllFields(f, c)[k] == Core(f, c)[k]
  {
    hide HeadFields, HookFields, DefFields, DetFields, ButtonFields, EnvMap, IsCustom;
    ButtonFieldsElsewhere(Core(f, c), c.buttons, k);
  }

  lemma GatherAt(f: Fields, k: string)
    requires !IsCustom(k) && k != "customButtons"
    ensures k in Gather(f) <==> k in f || k in HOOK_FIELDS
    ensures k in f ==> Gather(f)[k] == f[k]
    ensures k !in f && k in HOOK_FIELDS ==> Gather(f)[k] == Null
  {
    hide CustomButtons, IsCustom;
  }

  lemma GatherKeys(f: Fields, k: string)
    requires k in Gather(f)
    ensures k == "customButtons" || (!IsCustom(k) && (k in f || k in HOOK_FIELDS))
  {
    hide CustomButtons, IsCustom;
    if k in HOOK_FIELDS {
      NotCustom(k);
    }
  }

  lemma FixedHolds(name: string, c: Config, k: string)
    requires ConfigGood(c) && k in FIXED && k != "launchEnv" && k != "customButtons"
    ensures var f, g := Core(Start(name).fields, c), Gather(AllFields(Start(name).fields, c));
      (k in g <==> k in f) && (k in f ==> g[k] == f[k])
  {
    hide Core, AllFields, Gather, ConfigGood, Start;
    assert |c.hooks| == |HOOKS| by { HookCount(c); }
    NotCustom(k);
    FixedIsNoHook(k);
    AllFieldsAt(Start(name).fields, c, k);
    GatherAt(AllFields(Start(name).fields, c), k);
  }

  lemma HookCount(c: Config)
    requires ConfigGood(c)
    ensures |c.hooks| == |HOOKS|
  {
  }

  lemma HookHolds(name: string, c: Config, i: nat)
    requires ConfigGood(c) && i < |HOOKS|
    ensures |c.hooks| == |HOOKS|
    ensures var g := Gather(AllFields(Start(name).fields, c));
      HOOK_FIELDS[i] in g && g[HOOK_FIELDS[i]] == HookValue(c.hooks[i])
  {
    hide Core, AllFields, Gather, ConfigGood, Start;
    HookCount(c);
    HookIsNotFixed(i);
    NotCustom(HOOK_FIELDS[i]);
    assert "customButtons" in FIXED && "launchEnv" in FIXED;
    AllFieldsAt(Start(name).fields, c, HOOK_FIELDS[i]);
    CoreHooks(name, c, i);
    GatherAt(AllFields(Start(name).fields, c), HOOK_FIELDS[i]);
  }

  lemma EnvHolds(name: string, c: Config)
    requires ConfigGood(c)
    ensures var g := Gather(AllFields(Start(name).fields, c));
      if |c.env| == 0 then "launchEnv" !in g else "launchEnv" in g && g["launchEnv"] == EnvVars(EnvMap(c.env))
  {
    hide Gather, ConfigGood, Start, HeadFields, HookFields, DefFields, DetFields, ButtonFields, EnvMap, IsCustom, Core;
    HookCount(c);
    var f := Start(name).fields;
    var k := "launchEnv";
    assert k in FIXED;
    NotCustom(k);
    FixedIsNoHook(k);
    CoreHolds(name, c, k);
    var core := Core(f, c);
    SameCore(f, c);
    ButtonFieldsElsewhere(core, c.buttons, k);
    GatherAt(AllFields(f, c), k);
  }

  lemma SameCore(f: Fields, c: Config)
    requires |c.hooks| == |HOOKS|
    ensures AllFields(f, c) == EnvFields(ButtonFields(Core(f, c), c.buttons), c.env)
  {
    hide EnvFields, ButtonFields, DetFields, DefFields, HookFields, HeadFields;
  }

  lemma EnvKeepsCustom(f: Fields, env: seq<EnvVar>, k: string)
    requires IsCustom(k)
    ensures k in EnvFields(f, env) <==> k in f
    ensures k in f ==> EnvFields(f, env)[k] == f[k]
  {
    hide EnvMap;
    assert CUSTOM[0] == '_' && k[0] == CUSTOM[0];
    assert "launchEnv"[0] != '_';
  }

  lemma ButtonsHold(name: string, c: Config)
    requires ConfigGood(c)
    ensures var g := Gather(AllFields(Start(name).fields, c));
      "customButtons" in g && g["customButtons"] == if |c.buttons| == 0 then Null else Encoded(Obj(ButtonProps(c.buttons)))
  {
    hide ConfigGood, Start, Core, ButtonFields, EnvFields, IsCustom, ButtonProps, CustomButtons, AllFields, FixedKeys;
    HookCount(c);
    ButtonsPart(c);
    var f := Start(name).fields;
    var core, all := Core(f, c), AllFields(f, c);
    SameCore(f, c);
    CoreKeys(name, c);
    forall k | k in core ensures !IsCustom(k) {
      KnownKey(core, k);
      NotCustom(k);
    }
    forall k | IsCustom(k)
      ensures (k in all <==> k in ButtonFields(core, c.buttons)) && (k in all ==> all[k] == ButtonFields(core, c.buttons)[k])
    {
      EnvKeepsCustom(ButtonFields(core, c.buttons), c.env, k);
    }
    GatheredButtons(core, all, c.buttons);
    ButtonPropsNames(c.buttons, "");
  }

  lemma KnownKey(f: Fields, k: string)
    requires FixedKeys(f) && k in f
    ensures k in FIXED || k in HOOK_FIELDS
  {
  }

  lemma KeysHold(name: string, c: Config, k: string)
    requires ConfigGood(c) && k in Gather(AllFields(Start(name).fields, c))
    ensures k in FIXED || k in HOOK_FIELDS
  {
    hide ConfigGood, Start, Core, Gather, IsCustom, AllFields, FixedKeys;
    HookCount(c);
    var f := Start(name).fields;
    GatherKeys(AllFields(f, c), k);
    if k != "customButtons" && k != "launchEnv" && k !in HOOK_FIELDS {
      AllFieldsAt(f, c, k);
      CoreKeys(name, c);
      KnownKey(Core(f, c), k);
    }
  }

  lemma GatheredHolds(name: string, c: Config)
    requires ConfigGood(c)
    ensures |c.hooks| == |HOOKS| && Holds(Gather(AllFields(Start(name).fields, c)), name, c)
  {
    hide ConfigGood, Start, Core, Gather, AllFields, ButtonProps, EnvMap, IndicatorsJson, DetectionProps, HookValue;
    HookCount(c);
    forall k | k in FIXED && k != "launchEnv" && k != "customButtons"
      ensures var f, g := Core(Start(name).fields, c), Gather(AllFields(Start(name).fields, c));
        (k in g <==> k in f) && (k in f ==> g[k] == f[k])
    {
      FixedHolds(name, c, k);
    }
    CoreHolds(name, c, "engine");
    CoreHolds(name, c, "model");
    CoreHolds(name, c, "thinking");
    CoreHolds(name, c, "permissions");
    CoreHolds(name, c, "name");
    CoreHolds(name, c, "indicators");
    CoreHolds(name, c, "detection");
    forall i | 0 <= i < |HOOKS|
      ensures var g := Gather(AllFields(Start(name).fields, c));
        HOOK_FIELDS[i] in g && g[HOOK_FIELDS[i]] == HookValue(c.hooks[i])
    {
      HookHolds(name, c, i);
    }
    EnvHolds(name, c);
    ButtonsHold(name, c);
    forall k | k in Gather(AllFields(Start(name).fields, c)) ensures k in FIXED || k in HOOK_FIELDS {
      KeysHold(name, c, k);
    }
  }

  /** Printing a configuration and parsing the text gives exactly its fields. */
  lemma RoundTrip(name: string, c: Config)
    requires ConfigGood(c)
    ensures Printable(c)
    ensures Parse(name, Join(PrintLines(c))).Some?
    ensures Holds(Parse(name, Join(PrintLines(c))).value, name, c)
  {
    hide ConfigGood, Gather, AllFields, Holds, Start, ReadLines, PrintLines, Join, SplitLines, NoBreaks, Flush;
    PrintedLinesHaveNoBreaks(c);
    var lines := PrintLines(c);
    SplitJoin(lines);
    ReadsAll(name, c);
    GatheredHolds(name, c);
  }

  // ── where the round trip stops ──

  /** A badge comes back exactly when it is not enclosed in single quotes. */
  lemma BadgeSurvivesIff(f: Fields, defs: seq<Json>, o: map<string, Json>, badge: string)
    requires IsValue(badge)
    ensures (ReadLine(InDefs(f, defs, Some(o), None, None), "    badge: " + badge)
             == InDefs(f, defs, Some(o["badge" := Str(badge)]), None, None))
        <==> !Quoted(badge)
  {
    hide ReadLine, IsKey, IsId, OneLine;
    StepKey("badge");
    assert "    " + "badge" + ": " + badge == "    badge: " + badge;
    FieldLine(f, defs, o, "badge", badge, "    badge: " + badge);
    var p, q := o["badge" := Str(StripQuotes(badge))], o["badge" := Str(badge)];
    assert p["badge"] == Str(StripQuotes(badge)) && q["badge"] == Str(badge);
    assert Quoted(badge) ==> |StripQuotes(badge)| < |badge|;
  }

  /** A capture's regex comes back as the text it was exactly when it does not read as a number. */
  lemma CaptureRegexSurvivesIff(f: Fields, hook: string, js: seq<Json>, lines: nat, regex: string)
    requires IsValue(regex)
    ensures (ReadLine(InSteps(f, hook, js + [Obj(CaptureJson(lines, "", ""))]), "      regex: " + regex)
             == InSteps(f, hook, js + [Obj(CaptureJson(lines, regex, ""))]))
        <==> !IsNumeric(regex)
  {
    hide ReadLine, IsKey, IsId, IsNumeric, OneLine, Trimmed;
    StepKey("regex");
    CaptureIsCapture(lines, "", "");
    var all := js + [Obj(CaptureJson(lines, "", ""))];
    var v := if IsNumeric(regex) then NumberOf(regex) else Str(regex);
    assert "      " + "regex" + ": " + regex == "      regex: " + regex;
    CaptureLine(f, hook, all, CaptureJson(lines, "", ""), "regex", regex, "      regex: " + regex);
    var o := CaptureJson(lines, "", "")["regex" := v];
    ReplaceLast(js, Obj(CaptureJson(lines, "", "")), Obj(o));
    assert (js + [Obj(o)])[|js|] == Obj(o);
    assert (js + [Obj(CaptureJson(lines, regex, ""))])[|js|] == Obj(CaptureJson(lines, regex, ""));
    assert o["regex"] == v && CaptureJson(lines, regex, "")["regex"] == Str(regex);
  }

  /**
   * A button whose name every object inherits is saved under no button field: the parser takes the
   * name for a hook.
   */
  lemma InheritedNameIsNoButton(f: Fields, name: string)
    requires IsKey(name)
    ensures ReadLine(At(f), name + ":") == InSteps(f, CUSTOM + name, []) <==> ButtonName(name)
  {
    hide ReadLine, IsKey, INHERITED;
    Settles(f);
    TopLine(At(f), f, name, "", name + ":");
    if HookField(name).Some? {
      HookIsNotCustom(name);
    }
  }

  lemma HookIsNotCustom(name: string)
    requires HookField(name).Some?
    ensures HookField(name).value != CUSTOM + name
  {
    assert CUSTOM[0] == '_' && (CUSTOM + name)[0] == '_';
    assert ("inherited " + name)[0] == 'i';
    assert forall i :: 0 <= i < |HOOK_FIELDS| ==> HOOK_FIELDS[i][0] == 'h';
  }

  /** Without an engine the printed first line opens a button named after the key. */
  lemma EmptyEngineBecomesAButton(name: string)
    ensures ReadLine(Start(name), "engine: ") == InSteps(Start(name).fields, CUSTOM + "engine", [])
  {
    hide ReadLine;
    StartSettles(name);
    PlainKeys();
    assert "engine" in ["engine", "model", "thinking", "permissions"];
    assert "engine" + ": " + "" == "engine: ";
    TopLine(Start(name), Start(name).fields, "engine", "", "engine: ");
  }
}
