/**
 * The parser reads the top part of a printed configuration back, section by section: the head, the
 * hooks with their capture fields, the custom buttons and the launch environment. Every lemma takes
 * any parser state that a section can start from and any lines that may follow the section, so that
 * the sections can be put together in one proof at the end.
 */
module EngineYamlRoundTrip {
  import opened Options
  import opened JsText
  import opened EngineYaml
  import opened EngineYamlLines

  // ── which configurations survive ──

  predicate IsValue(v: string) {
    v != "" && IsText(v)
  }

  predicate IsOptional(v: string) {
    v == "" || IsValue(v)
  }

  predicate StepGood(s: Step) {
    match s
    case Shell(command) => IsValue(command)
    case Wait(ms) => ms > 0
    case Capture(_, regex, name) => PlainWord(regex) && PlainWord(name)
    case Keystroke(key) => IsValue(key)
  }

  /** A capture's text, which must not read as a number. */
  predicate PlainWord(v: string) {
    v == "" || (IsValue(v) && !IsNumeric(v))
  }

  predicate StepsGood(steps: seq<Step>) {
    forall s :: s in steps ==> StepGood(s)
  }

  predicate HookGood(h: Option<Hook>) {
    match h
    case None => true
    case Some(Pipeline(steps)) => StepsGood(steps)
    case Some(Inline(text)) => IsValue(text)
  }

  predicate ActionStepGood(s: ActionStep) {
    match s
    case Press(key) => IsText(key)
    case Run(command) => IsText(command)
  }

  predicate ActionGood(a: Action) {
    IsId(a.name) && a.name != PROTO && forall s :: s in a.steps ==> ActionStepGood(s)
  }

  ghost predicate ActionsGood(actions: seq<Action>) {
    && (forall a :: a in actions ==> ActionGood(a))
    && forall i, j :: 0 <= i < j < |actions| ==> actions[i].name != actions[j].name
  }

  /** A badge or style is printed without quotes, and parsing takes away quotes that enclose it. */
  predicate Unquoted(v: string) {
    v == "" || (IsValue(v) && !Quoted(v))
  }

  ghost predicate IndicatorGood(d: Indicator) {
    && IsId(d.id) && d.id[0] != '-'
    && OneLine(d.regex) && Unquoted(d.badge) && Unquoted(d.style)
    && (d.actions.Some? ==> ActionsGood(d.actions.value))
  }

  predicate PatternGood(p: Pattern) {
    OneLine(p.pattern) && (p.Windowed? && p.lines.Some? ==> p.lines.value > 0)
  }

  predicate PatternsGood(ps: seq<Pattern>) {
    forall p :: p in ps ==> PatternGood(p)
  }

  predicate DetectionGood(d: Detection) {
    PatternsGood(d.idle) && PatternsGood(d.active) && OneLine(d.context)
  }

  /** A key of its own at the top level: no hook, no section, nothing every object inherits. */
  predicate ButtonName(name: string) {
    IsKey(name) && HookField(name).None? && name != "indicators" && name != "detection" && name != "env"
  }

  ghost predicate ButtonsGood(buttons: seq<Button>) {
    && (forall b :: b in buttons ==> ButtonName(b.name) && StepsGood(b.steps) && forall s :: s in b.steps ==> !s.Capture?)
    && forall i, j :: 0 <= i < j < |buttons| ==> buttons[i].name != buttons[j].name
  }

  ghost predicate EnvGood(env: seq<EnvVar>) {
    && (forall v :: v in env ==> IsKey(v.name) && v.name != PROTO && IsText(v.value))
    && forall i, j :: 0 <= i < j < |env| ==> env[i].name != env[j].name
  }

  ghost predicate ConfigGood(c: Config) {
    && IsValue(c.engine) && IsOptional(c.model) && IsOptional(c.thinking) && IsOptional(c.permissions)
    && |c.hooks| == |HOOKS| && (forall h :: h in c.hooks ==> HookGood(h))
    && (forall d :: d in c.indicators ==> IndicatorGood(d))
    && (c.detection.Some? ==> DetectionGood(c.detection.value))
    && ButtonsGood(c.buttons) && EnvGood(c.env)
  }

  // ── the JSON a configuration stands for ──

  function StepJson(s: Step): Json {
    match s
    case Shell(command) => Obj(map["type" := Str("shell"), "command" := Str(command)])
    case Wait(ms) => Obj(map["type" := Str("wait"), "ms" := Num(ms)])
    case Capture(lines, regex, name) =>
      Obj(map["type" := Str("capture"), "lines" := Num(lines), "regex" := Str(regex), "var" := Str(name)])
    case Keystroke(key) => Obj(map["type" := Str("keystroke"), "key" := Str(key)])
  }

  function StepsJson(steps: seq<Step>): seq<Json> {
    seq(|steps|, i requires 0 <= i < |steps| => StepJson(steps[i]))
  }

  function HookValue(h: Option<Hook>): Field {
    match h
    case None => Null
    case Some(Pipeline(steps)) => Encoded(Arr(StepsJson(steps)))
    case Some(Inline(text)) => Plain(text)
  }

  function ActionStepJson(s: ActionStep): Json {
    match s
    case Press(key) => Obj(map["type" := Str("keystroke"), "keystroke" := Str(key)])
    case Run(command) => Obj(map["type" := Str("shell"), "command" := Str(command)])
  }

  function ActionStepsJson(steps: seq<ActionStep>): seq<Json> {
    seq(|steps|, i requires 0 <= i < |steps| => ActionStepJson(steps[i]))
  }

  function ActionProps(actions: seq<Action>): map<string, Json> {
    if |actions| == 0 then map[]
    else
      var a := actions[|actions| - 1];
      ActionProps(actions[..|actions| - 1])[a.name := Arr(ActionStepsJson(a.steps))]
  }

  function WithText(o: map<string, Json>, key: string, v: string): map<string, Json> {
    if v == "" then o else o[key := Str(v)]
  }

  /** An indicator without its actions. */
  function IndicatorFields(d: Indicator): map<string, Json> {
    WithText(WithText(WithText(map["id" := Str(d.id)], "regex", d.regex), "badge", d.badge), "style", d.style)
  }

  /** The indicator once some actions are saved; of an empty list nothing is. */
  function WithActions(o: map<string, Json>, actions: seq<Action>): map<string, Json> {
    if |actions| == 0 then o else o["actions" := Obj(ActionProps(actions))]
  }

  function IndicatorJson(d: Indicator): Json {
    Obj(match d.actions
        case None => IndicatorFields(d)
        case Some(actions) => WithActions(IndicatorFields(d), actions))
  }

  function IndicatorsJson(defs: seq<Indicator>): seq<Json> {
    seq(|defs|, i requires 0 <= i < |defs| => IndicatorJson(defs[i]))
  }

  function PatternJson(p: Pattern): Json {
    match p
    case Regex(pattern) => Str(pattern)
    case Windowed(pattern, None) => Obj(map["pattern" := Str(pattern)])
    case Windowed(pattern, Some(n)) => Obj(map["pattern" := Str(pattern), "lines" := Num(n)])
  }

  function PatternsJson(ps: seq<Pattern>): seq<Json> {
    seq(|ps|, i requires 0 <= i < |ps| => PatternJson(ps[i]))
  }

  function WithList(o: map<string, Json>, key: string, ps: seq<Pattern>): map<string, Json> {
    if |ps| == 0 then o else o[key := Arr(PatternsJson(ps))]
  }

  function WithNumber(o: map<string, Json>, key: string, n: Option<nat>): map<string, Json> {
    match n case None => o case Some(k) => o[key := Num(k)]
  }

  function DetectionProps(d: Detection): map<string, Json> {
    var lists := WithList(WithList(map[], "idlePatterns", d.idle), "activePatterns", d.active);
    var texts := WithText(lists, "contextPattern", d.context);
    var numbers := WithNumber(WithNumber(WithNumber(texts, "idleThreshold", d.idleThreshold), "activeGraceMs", d.activeGraceMs),
                              "snapshotLines", d.snapshotLines);
    match d.autoRecover case None => numbers case Some(b) => numbers["autoRecover" := Bool(b)]
  }

  function ButtonProps(buttons: seq<Button>): map<string, Json> {
    if |buttons| == 0 then map[]
    else
      var b := buttons[|buttons| - 1];
      ButtonProps(buttons[..|buttons| - 1])[b.name := Arr(StepsJson(b.steps))]
  }

  function EnvMap(env: seq<EnvVar>): map<string, string> {
    if |env| == 0 then map[]
    else EnvMap(env[..|env| - 1])[env[|env| - 1].name := env[|env| - 1].value]
  }

  // ── states between sections ──

  /** Nothing pending. */
  function At(f: Fields): State {
    State(f, None, None, false, [], None, None, None, false, map[], None, false)
  }

  /** Saving what is pending leaves exactly the fields `f`. */
  ghost predicate Reaches(p: State, f: Fields) {
    !p.failed && Flush(p) == At(f)
  }

  lemma {:induction false} ReadAppends(p: State, a: seq<string>, b: seq<string>)
    ensures ReadLines(p, a + b) == ReadLines(ReadLines(p, a), b)
  {
    hide ReadLine;
    if |b| == 0 {
      assert a + b == a;
    } else {
      ReadAppends(p, a, b[..|b| - 1]);
      assert (a + b)[..|a + b| - 1] == a + b[..|b| - 1];
    }
  }

  lemma ReadOne(p: State, line: string)
    ensures ReadLines(p, [line]) == ReadLine(p, line)
  {
    hide ReadLine;
    assert [line][..0] == [];
    assert ReadLines(p, []) == p;
  }

  lemma ReadNone(p: State)
    ensures ReadLines(p, []) == p
  {
  }

  lemma ReadHead(p: State, line: string, rest: seq<string>)
    ensures ReadLines(p, [line] + rest) == ReadLines(ReadLine(p, line), rest)
  {
    hide ReadLine;
    ReadAppends(p, [line], rest);
    ReadOne(p, line);
  }

  /** A top-level line saves what is pending and opens its key. */
  lemma TopLine(p: State, f: Fields, key: string, v: string, line: string)
    requires Reaches(p, f) && IsKey(key) && IsText(v)
    requires line == key + ": " + v || (v == "" && line == key + ":")
    ensures ReadLine(p, line) == Open(At(f), key, v)
  {
    hide Open, Flush, KvMatch, Trim, TrimEnd, DetectionLine, IndicatorLine;
    assert "" + key + ": " + v == key + ": " + v && "" + key + ":" == key + ":";
    KeyLine("", key, v, line);
    assert "" + KeyText(key, v) == KeyText(key, v);
  }

  lemma PlainField(p: State, f: Fields, key: string, v: string, line: string)
    requires Reaches(p, f) && IsKey(key) && IsValue(v) && line == key + ": " + v
    requires HookField(key).None? && key != "indicators" && key != "detection" && key != "env"
    ensures Reaches(ReadLine(p, line), f[key := Plain(v)])
  {
    hide ReadLine;
    TopLine(p, f, key, v, line);
  }

  lemma PlainKeys()
    ensures forall k :: k in ["engine", "model", "thinking", "permissions"] ==>
      IsKey(k) && HookField(k).None? && k != "indicators" && k != "detection" && k != "env"
  {
  }

  function WithPlain(f: Fields, key: string, v: string): Fields {
    if v == "" then f else f[key := Plain(v)]
  }

  lemma TextField(p: State, f: Fields, key: string, v: string)
    requires Reaches(p, f) && IsOptional(v) && key in ["engine", "model", "thinking", "permissions"]
    ensures Reaches(ReadLines(p, PrintText(key, v)), WithPlain(f, key, v))
  {
    hide ReadLine, Reaches, HookField, IsKey;
    if v == "" {
      ReadNone(p);
    } else {
      PlainKeys();
      ReadOne(p, key + ": " + v);
      PlainField(p, f, key, v, key + ": " + v);
    }
  }

  function HeadFields(f: Fields, c: Config): Fields {
    WithPlain(WithPlain(WithPlain(f["engine" := Plain(c.engine)], "model", c.model), "thinking", c.thinking),
              "permissions", c.permissions)
  }

  lemma ReadsHead(p: State, f: Fields, c: Config)
    requires Reaches(p, f) && IsValue(c.engine) && IsOptional(c.model) && IsOptional(c.thinking) && IsOptional(c.permissions)
    ensures Reaches(ReadLines(p, PrintHead(c)), HeadFields(f, c))
  {
    hide ReadLine, ReadLines, Reaches, PrintText, IsOptional;
    var engine := ["engine: " + c.engine];
    PlainKeys();
    assert "engine" + ": " + c.engine == "engine: " + c.engine;
    ReadOne(p, engine[0]);
    PlainField(p, f, "engine", c.engine, engine[0]);
    var p1 := ReadLines(p, engine);
    var f1 := f["engine" := Plain(c.engine)];
    TextField(p1, f1, "model", c.model);
    ReadAppends(p, engine, PrintText("model", c.model));
    var p2 := ReadLines(p1, PrintText("model", c.model));
    TextField(p2, WithPlain(f1, "model", c.model), "thinking", c.thinking);
    ReadAppends(p, engine + PrintText("model", c.model), PrintText("thinking", c.thinking));
    var p3 := ReadLines(p2, PrintText("thinking", c.thinking));
    TextField(p3, WithPlain(WithPlain(f1, "model", c.model), "thinking", c.thinking), "permissions", c.permissions);
    ReadAppends(p, engine + PrintText("model", c.model) + PrintText("thinking", c.thinking),
                PrintText("permissions", c.permissions));
  }

  // ── pipelines ──

  /** Inside the pipeline of `key`. */
  function InSteps(f: Fields, key: string, steps: seq<Json>): State {
    At(f).(key := Some(key), steps := Some(steps))
  }

  lemma StepsSettle(f: Fields, key: string, steps: seq<Json>)
    ensures Reaches(InSteps(f, key, steps), f[key := Encoded(Arr(steps))])
  {
  }

  lemma StepLine(f: Fields, hook: string, js: seq<Json>, key: string, v: string, line: string)
    requires IsKey(key) && IsText(v)
    requires line == "  - " + key + ": " + v || (v == "" && line == "  - " + key + ":")
    ensures ReadLine(InSteps(f, hook, js), line) == InSteps(f, hook, js + StepItem(KeyText(key, v)))
    ensures KvMatch(KeyText(key, v)) == Some(KeyValue(key, v)) && Trim(v) == v
  {
    hide KvMatch, Trim, TrimStart, TrimEnd, DropDash, StepItem, KeyText, DetectionLine, IndicatorLine, Indent, KeyAt;
    assert "  " + "- " + key + ": " + v == "  - " + key + ": " + v && "  " + "- " + key + ":" == "  - " + key + ":";
    ItemLine("  ", key, v, line);
    assert StartsWith(TrimEnd(line), "  - ");
  }

  const STEP_KEYS: seq<string> :=
    ["shell", "wait", "keystroke", "capture", "lines", "regex", "var", "pattern", "badge", "style", "actions"]

  lemma StepKey(key: string)
    requires key in STEP_KEYS
    ensures IsKey(key) && IsId(key)
  {
    hide IsId;
    KeyStart(key);
  }

  lemma CaptureLine(f: Fields, hook: string, js: seq<Json>, o: map<string, Json>, key: string, v: string, line: string)
    requires |js| > 0 && js[|js| - 1] == Obj(o) && IsCapture(Obj(o))
    requires IsKey(key) && IsText(v) && v != "" && key != PROTO && line == "      " + key + ": " + v
    ensures ReadLine(InSteps(f, hook, js), line)
         == InSteps(f, hook, js[|js| - 1 := Obj(o[key := if IsNumeric(v) then NumberOf(v) else Str(v)])])
  {
    hide KvMatch, Trim, TrimStart, TrimEnd, DropDash, StepItem, DetectionLine, IndicatorLine, Indent, IsNumeric, NumberOf,
         KeyAt, StartsWith, KeyText, IsKey;
    KeyLine("      ", key, v, line);
    SixDeep(key, v);
  }

  lemma SixDeep(key: string, v: string)
    requires IsKey(key)
    ensures KeyAt("      " + KeyText(key, v), 6) && !StartsWith("      " + KeyText(key, v), "  - ")
  {
    var t := "      " + KeyText(key, v);
    assert t[..4][2] == ' ' && "  - "[2] == '-';
    assert forall k :: 6 <= k < 6 + |key| ==> t[k] == key[k - 6];
    assert t[6 + |key|] == ':';
    assert WordEnd(t, 6) == 6 + |key|;
  }

  lemma ReadsStep(f: Fields, hook: string, js: seq<Json>, step: Step)
    requires StepGood(step)
    ensures ReadLines(InSteps(f, hook, js), PrintStep(step)) == InSteps(f, hook, js + [StepJson(step)])
  {
    hide ReadLine, ReadLines, KvMatch, Trim, KeyText, IsKey, IsId, StepItem, ParseInt, Decimal;
    var p := InSteps(f, hook, js);
    match step {
      case Shell(command) => {
        StepKey("shell");
        StepLine(f, hook, js, "shell", command, "  - shell: " + command);
        ReadOne(p, "  - shell: " + command);
        StepItems("shell", command);
      }
      case Keystroke(key) => {
        StepKey("keystroke");
        StepLine(f, hook, js, "keystroke", key, "  - keystroke: " + key);
        ReadOne(p, "  - keystroke: " + key);
        StepItems("keystroke", key);
      }
      case Wait(ms) => {
        StepKey("wait");
        DecimalIsValue(ms);
        ParseDecimal(ms);
        StepLine(f, hook, js, "wait", Decimal(ms), "  - wait: " + Decimal(ms));
        ReadOne(p, "  - wait: " + Decimal(ms));
        StepItems("wait", Decimal(ms));
      }
      case Capture(lines, regex, name) => ReadsCapture(f, hook, js, lines, regex, name);
    }
  }

  lemma StepItems(key: string, v: string)
    requires KvMatch(KeyText(key, v)) == Some(KeyValue(key, v)) && Trim(v) == v
    ensures key == "shell" ==> StepItem(KeyText(key, v)) == [StepJson(Shell(v))]
    ensures key == "keystroke" ==> StepItem(KeyText(key, v)) == [StepJson(Keystroke(v))]
    ensures key == "wait" && ParseInt(v).Some? && ParseInt(v).value > 0 ==>
      StepItem(KeyText(key, v)) == [StepJson(Wait(ParseInt(v).value))]
    ensures key == "capture" ==> StepItem(KeyText(key, v)) == [EMPTY_CAPTURE]
  {
    hide KvMatch, KeyText, Trim, ParseInt;
  }

  function CaptureJson(lines: nat, regex: string, name: string): map<string, Json> {
    map["type" := Str("capture"), "lines" := Num(lines), "regex" := Str(regex), "var" := Str(name)]
  }

  lemma CaptureText(f: Fields, hook: string, js: seq<Json>, o: map<string, Json>, key: string, v: string)
    requires |js| > 0 && js[|js| - 1] == Obj(o) && IsCapture(Obj(o)) && IsKey(key) && key != PROTO && PlainWord(v)
    requires v == "" ==> key in o && o[key] == Str("")
    ensures ReadLines(InSteps(f, hook, js), if v != "" then ["      " + key + ": " + v] else [])
         == InSteps(f, hook, js[|js| - 1 := Obj(o[key := Str(v)])])
  {
    hide ReadLine, IsNumeric;
    var p := InSteps(f, hook, js);
    if v == "" {
      ReadNone(p);
      assert o[key := Str(v)] == o;
      assert js[|js| - 1 := Obj(o)] == js;
    } else {
      CaptureLine(f, hook, js, o, key, v, "      " + key + ": " + v);
      ReadOne(p, "      " + key + ": " + v);
    }
  }

  lemma CaptureNumber(f: Fields, hook: string, js: seq<Json>, lines: nat)
    ensures ReadLines(InSteps(f, hook, js + [EMPTY_CAPTURE]), if lines != 0 then ["      lines: " + Decimal(lines)] else [])
         == InSteps(f, hook, js + [Obj(CaptureJson(lines, "", ""))])
  {
    hide ReadLine, IsNumeric, NumberOf, IsKey, IsId;
    var all := js + [EMPTY_CAPTURE];
    var p := InSteps(f, hook, all);
    if lines == 0 {
      ReadNone(p);
    } else {
      StepKey("lines");
      DecimalIsValue(lines);
      DecimalIsNumeric(lines);
      CaptureLine(f, hook, all, EMPTY_CAPTURE.props, "lines", Decimal(lines), "      lines: " + Decimal(lines));
      ReadOne(p, "      lines: " + Decimal(lines));
      assert EMPTY_CAPTURE.props["lines" := Num(lines)] == CaptureJson(lines, "", "");
      assert all[|all| - 1 := Obj(CaptureJson(lines, "", ""))] == js + [Obj(CaptureJson(lines, "", ""))];
    }
  }

  lemma CaptureIsCapture(lines: nat, regex: string, name: string)
    ensures IsCapture(Obj(CaptureJson(lines, regex, name)))
    ensures CaptureJson(lines, regex, name)["regex"] == Str(regex) && CaptureJson(lines, regex, name)["var"] == Str(name)
    ensures forall v :: CaptureJson(lines, regex, name)["regex" := Str(v)] == CaptureJson(lines, v, name)
    ensures forall v :: CaptureJson(lines, regex, name)["var" := Str(v)] == CaptureJson(lines, regex, v)
  {
  }

  lemma ReplaceLast(js: seq<Json>, a: Json, b: Json)
    ensures (js + [a])[|js| := b] == js + [b]
  {
  }

  lemma CaptureTexts(f: Fields, hook: string, js: seq<Json>, lines: nat, regex: string, name: string)
    requires PlainWord(regex) && PlainWord(name)
    ensures ReadLines(InSteps(f, hook, js + [Obj(CaptureJson(lines, "", ""))]),
                      (if regex != "" then ["      regex: " + regex] else []) + (if name != "" then ["      var: " + name] else []))
         == InSteps(f, hook, js + [Obj(CaptureJson(lines, regex, name))])
  {
    hide ReadLine, ReadLines, IsKey, IsId, PlainWord, CaptureJson, IsCapture, InSteps;
    StepKey("regex");
    StepKey("var");
    var c := if regex != "" then ["      regex: " + regex] else [];
    var d := if name != "" then ["      var: " + name] else [];
    assert "      " + "regex" + ": " + regex == "      regex: " + regex;
    assert "      " + "var" + ": " + name == "      var: " + name;
    CaptureIsCapture(lines, "", "");
    CaptureIsCapture(lines, regex, "");
    var one := js + [Obj(CaptureJson(lines, "", ""))];
    CaptureText(f, hook, one, CaptureJson(lines, "", ""), "regex", regex);
    ReplaceLast(js, Obj(CaptureJson(lines, "", "")), Obj(CaptureJson(lines, regex, "")));
    var two := js + [Obj(CaptureJson(lines, regex, ""))];
    ReadAppends(InSteps(f, hook, one), c, d);
    CaptureText(f, hook, two, CaptureJson(lines, regex, ""), "var", name);
    ReplaceLast(js, Obj(CaptureJson(lines, regex, "")), Obj(CaptureJson(lines, regex, name)));
  }

  lemma ReadsCapture(f: Fields, hook: string, js: seq<Json>, lines: nat, regex: string, name: string)
    requires PlainWord(regex) && PlainWord(name)
    ensures ReadLines(InSteps(f, hook, js), PrintStep(Capture(lines, regex, name)))
         == InSteps(f, hook, js + [StepJson(Capture(lines, regex, name))])
  {
    hide ReadLine, ReadLines, KvMatch, Trim, KeyText, IsKey, IsId, PlainWord, StepItem, Decimal, InSteps;
    var p := InSteps(f, hook, js);
    var a := ["  - capture:"];
    var b := if lines != 0 then ["      lines: " + Decimal(lines)] else [];
    var c := if regex != "" then ["      regex: " + regex] else [];
    var d := if name != "" then ["      var: " + name] else [];
    StepKey("capture");
    StepLine(f, hook, js, "capture", "", "  - capture:");
    StepItems("capture", "");
    ReadOne(p, "  - capture:");
    CaptureNumber(f, hook, js, lines);
    ReadAppends(p, a, b);
    CaptureTexts(f, hook, js, lines, regex, name);
    ReadAppends(p, a + b, c + d);
    assert PrintStep(Capture(lines, regex, name)) == a + b + (c + d);
  }

  lemma StepsJsonGrows(steps: seq<Step>)
    requires |steps| > 0
    ensures StepsJson(steps) == StepsJson(steps[..|steps| - 1]) + [StepJson(steps[|steps| - 1])]
  {
  }

  lemma {:induction false} ReadsSteps(f: Fields, hook: string, steps: seq<Step>)
    requires StepsGood(steps)
    ensures ReadLines(InSteps(f, hook, []), PrintSteps(steps)) == InSteps(f, hook, StepsJson(steps))
  {
    hide ReadLine, ReadLines, StepGood, StepJson, PrintStep;
    if |steps| == 0 {
      assert StepsJson(steps) == [];
      ReadNone(InSteps(f, hook, []));
    } else {
      var rest, last := steps[..|steps| - 1], steps[|steps| - 1];
      ReadsSteps(f, hook, rest);
      ReadAppends(InSteps(f, hook, []), PrintSteps(rest), PrintStep(last));
      ReadsStep(f, hook, StepsJson(rest), last);
      StepsJsonGrows(steps);
    }
  }

  /** A key with a pipeline, whether of a hook or of a button. */
  lemma ReadsPipeline(p: State, f: Fields, key: string, field: string, steps: seq<Step>)
    requires Reaches(p, f) && IsKey(key) && StepsGood(steps)
    requires Open(At(f), key, "") == InSteps(f, field, [])
    ensures Reaches(ReadLines(p, [key + ":"] + PrintSteps(steps)), f[field := Encoded(Arr(StepsJson(steps)))])
  {
    hide ReadLine, ReadLines, StepsGood, StepJson, PrintSteps, Open, Reaches, IsKey;
    TopLine(p, f, key, "", key + ":");
    ReadHead(p, key + ":", PrintSteps(steps));
    ReadsSteps(f, field, steps);
    StepsSettle(f, field, StepsJson(steps));
  }

  // ── hooks ──

  lemma HookKeys(i: nat)
    requires i < |HOOKS|
    ensures IsKey(HOOKS[i]) && HookField(HOOKS[i]) == Some(HOOK_FIELDS[i])
  {
  }

  function WithHook(f: Fields, i: nat, h: Option<Hook>): Fields
    requires i < |HOOKS|
  {
    if h.None? then f else f[HOOK_FIELDS[i] := HookValue(h)]
  }

  lemma ReadsHook(p: State, f: Fields, i: nat, h: Option<Hook>)
    requires Reaches(p, f) && i < |HOOKS| && HookGood(h)
    ensures Reaches(ReadLines(p, PrintHook(HOOKS[i], h)), WithHook(f, i, h))
  {
    hide ReadLine, ReadLines, StepsGood, PrintSteps, Reaches, IsKey, HookField, StepsJson;
    HookKeys(i);
    match h {
      case None => ReadNone(p);
      case Some(Pipeline(steps)) => ReadsPipeline(p, f, HOOKS[i], HOOK_FIELDS[i], steps);
      case Some(Inline(text)) => {
        TopLine(p, f, HOOKS[i], text, HOOKS[i] + ": " + text);
        ReadOne(p, HOOKS[i] + ": " + text);
        Settles(f[HOOK_FIELDS[i] := Plain(text)]);
      }
    }
  }

  lemma Settles(f: Fields)
    ensures Reaches(At(f), f)
  {
  }

  function HookFields(f: Fields, hooks: seq<Option<Hook>>): Fields
    requires |hooks| <= |HOOKS|
  {
    if |hooks| == 0 then f else WithHook(HookFields(f, hooks[..|hooks| - 1]), |hooks| - 1, hooks[|hooks| - 1])
  }

  lemma {:induction false} ReadsHooks(p: State, f: Fields, hooks: seq<Option<Hook>>)
    requires Reaches(p, f) && |hooks| <= |HOOKS| && forall h :: h in hooks ==> HookGood(h)
    ensures Reaches(ReadLines(p, PrintHooks(hooks)), HookFields(f, hooks))
  {
    hide ReadLine, ReadLines, HookGood, PrintHook, Reaches, WithHook;
    if |hooks| == 0 {
      ReadNone(p);
    } else {
      var n := |hooks| - 1;
      ReadsHooks(p, f, hooks[..n]);
      ReadAppends(p, PrintHooks(hooks[..n]), PrintHook(HOOKS[n], hooks[n]));
      ReadsHook(ReadLines(p, PrintHooks(hooks[..n])), HookFields(f, hooks[..n]), n, hooks[n]);
    }
  }

  // ── buttons ──

  function ButtonFields(f: Fields, buttons: seq<Button>): Fields {
    if |buttons| == 0 then f
    else
      var b := buttons[|buttons| - 1];
      ButtonFields(f, buttons[..|buttons| - 1])[CUSTOM + b.name := Encoded(Arr(StepsJson(b.steps)))]
  }

  lemma {:induction false} ReadsButtons(p: State, f: Fields, buttons: seq<Button>)
    requires Reaches(p, f) && forall b :: b in buttons ==> ButtonName(b.name) && StepsGood(b.steps)
    ensures Reaches(ReadLines(p, PrintButtons(buttons)), ButtonFields(f, buttons))
  {
    hide ReadLine, ReadLines, StepsGood, PrintSteps, Reaches, StepsJson, HookField, IsKey;
    if |buttons| == 0 {
      ReadNone(p);
    } else {
      var rest, b := buttons[..|buttons| - 1], buttons[|buttons| - 1];
      ReadsButtons(p, f, rest);
      ReadAppends(p, PrintButtons(rest), [b.name + ":"] + PrintSteps(b.steps));
      ReadsPipeline(ReadLines(p, PrintButtons(rest)), ButtonFields(f, rest), b.name, CUSTOM + b.name, b.steps);
    }
  }

  // ── environment ──

  function WithEnv(f: Fields, vars: map<string, string>): Fields {
    f["launchEnv" := EnvVars(vars)]
  }

  lemma EnvVarLine(f: Fields, vars: map<string, string>, v: EnvVar, line: string)
    requires IsKey(v.name) && v.name != PROTO && IsText(v.value) && line == "  " + v.name + ": " + v.value
    ensures ReadLine(At(WithEnv(f, vars)), line) == At(WithEnv(f, vars[v.name := v.value]))
  {
    hide KvMatch, Trim, TrimStart, TrimEnd, DropDash, StepItem, DetectionLine, IndicatorLine, Indent;
    KeyLine("  ", v.name, v.value, line);
    TwoDeep(v.name, v.value);
    assert WithEnv(f, vars)["launchEnv" := EnvVars(vars[v.name := v.value])] == WithEnv(f, vars[v.name := v.value]);
  }

  lemma TwoDeep(key: string, v: string)
    requires IsKey(key)
    ensures KeyAt("  " + KeyText(key, v), 2)
  {
    var t := "  " + KeyText(key, v);
    assert forall k :: 2 <= k < 2 + |key| ==> t[k] == key[k - 2];
    assert t[2 + |key|] == ':';
    assert WordEnd(t, 2) == 2 + |key|;
  }

  lemma {:induction false} ReadsEnvVars(f: Fields, env: seq<EnvVar>)
    requires EnvGood(env)
    ensures ReadLines(At(WithEnv(f, map[])), PrintEnv(env)) == At(WithEnv(f, EnvMap(env)))
  {
    hide ReadLine, ReadLines, IsKey, IsText;
    if |env| == 0 {
      ReadNone(At(WithEnv(f, map[])));
    } else {
      var rest, v := env[..|env| - 1], env[|env| - 1];
      ReadsEnvVars(f, rest);
      var line := "  " + v.name + ": " + v.value;
      ReadAppends(At(WithEnv(f, map[])), PrintEnv(rest), [line]);
      ReadOne(At(WithEnv(f, EnvMap(rest))), line);
      EnvVarLine(f, EnvMap(rest), v, line);
    }
  }

  function EnvFields(f: Fields, env: seq<EnvVar>): Fields {
    if |env| == 0 then f else WithEnv(f, EnvMap(env))
  }

  lemma ReadsEnv(p: State, f: Fields, env: seq<EnvVar>)
    requires Reaches(p, f) && EnvGood(env)
    ensures Reaches(ReadLines(p, PrintEnvSection(env)), EnvFields(f, env))
  {
    hide ReadLine, ReadLines, Reaches, EnvGood, PrintEnv, EnvMap;
    if |env| == 0 {
      ReadNone(p);
    } else {
      assert IsKey("env") && HookField("env").None?;
      TopLine(p, f, "env", "", "env:");
      ReadHead(p, "env:", PrintEnv(env));
      ReadsEnvVars(f, env);
      Settles(WithEnv(f, EnvMap(env)));
    }
  }
}
