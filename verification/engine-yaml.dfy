/** Engine configurations, printed as simple YAML and parsed back by a line state machine. */
module EngineYaml {
  import opened Options
  import opened JsText

  // ── JSON values; an encoded field is a JSON text, kept here as the value it encodes ──

  datatype Json =
    | Num(n: int)
    | OtherNumber(text: string)
    | Str(s: string)
    | Bool(b: bool)
    | Arr(items: seq<Json>)
    | Obj(props: map<string, Json>)

  datatype Field = Plain(text: string) | Encoded(json: Json) | EnvVars(vars: map<string, string>) | Null

  type Fields = map<string, Field>

  // ── the configuration, as the printer reads it ──

  datatype Step = Shell(command: string) | Wait(ms: nat) | Capture(lines: nat, regex: string, name: string) | Keystroke(key: string)

  /** A hook text is the JSON of an array of steps, or it is `Inline`: a text that is no JSON array. */
  datatype Hook = Pipeline(steps: seq<Step>) | Inline(text: string)

  datatype ActionStep = Press(key: string) | Run(command: string)

  datatype Action = Action(name: string, steps: seq<ActionStep>)

  datatype Indicator = Indicator(id: string, regex: string, badge: string, style: string, actions: Option<seq<Action>>)

  datatype Pattern = Regex(pattern: string) | Windowed(pattern: string, lines: Option<nat>)

  datatype Detection = Detection(idle: seq<Pattern>, active: seq<Pattern>, context: string, idleThreshold: Option<nat>,
                                 activeGraceMs: Option<nat>, snapshotLines: Option<nat>, autoRecover: Option<bool>)

  datatype Button = Button(name: string, steps: seq<Step>)

  datatype EnvVar = EnvVar(name: string, value: string)

  /** The seven hooks in the order of `HOOKS`; an empty text or list means an absent field. */
  datatype Config = Config(engine: string, model: string, thinking: string, permissions: string, hooks: seq<Option<Hook>>,
                           indicators: seq<Indicator>, detection: Option<Detection>, buttons: seq<Button>, env: seq<EnvVar>)

  const HOOKS: seq<string> := ["start", "resume", "compact", "exit", "interrupt", "reload", "submit"]
  const HOOK_FIELDS: seq<string> :=
    ["hookStart", "hookResume", "hookCompact", "hookExit", "hookInterrupt", "hookReload", "hookSubmit"]

  const CUSTOM := "__custom__"
  const PROTO := "__proto__"

  /** What every object inherits, so that looking the name up in a plain object finds something. */
  const INHERITED: set<string> :=
    {"constructor", "hasOwnProperty", "isPrototypeOf", "propertyIsEnumerable", "toLocaleString", "toString", "valueOf",
     "__proto__", "__defineGetter__", "__defineSetter__", "__lookupGetter__", "__lookupSetter__"}

  // ── numbers ──

  predicate IsHex(c: char) {
    IsDigit(c) || 'a' <= c <= 'f' || 'A' <= c <= 'F'
  }

  function HexDigit(c: char): nat
    requires IsHex(c)
  {
    if IsDigit(c) then c as int - '0' as int
    else if 'a' <= c <= 'f' then c as int - 'a' as int + 10
    else c as int - 'A' as int + 10
  }

  function HexValue(s: string, acc: nat): nat
    decreases |s|
  {
    if |s| > 0 && IsHex(s[0]) then HexValue(s[1..], 16 * acc + HexDigit(s[0])) else acc
  }

  /** `parseInt`: a sign, then decimal digits or 0x and hexadecimal ones; None is NaN. */
  function ParseInt(text: string): Option<int> {
    var s := TrimStart(text);
    var negative := |s| > 0 && s[0] == '-';
    var u := if |s| > 0 && (s[0] == '-' || s[0] == '+') then s[1..] else s;
    var magnitude: Option<int> :=
      if |u| >= 2 && u[0] == '0' && (u[1] == 'x' || u[1] == 'X') then
        if |u| > 2 && IsHex(u[2]) then Some(HexValue(u[2..], 0)) else None
      else
        var j := DigitsEnd(u, 0);
        if j > 0 then Some(DigitsValue(u[..j])) else None;
    match magnitude
    case Some(m) => Some(if negative then -m else m)
    case None => None
  }

  /** After the mantissa: nothing, or an exponent. */
  predicate IsExponent(s: string) {
    s == "" ||
    (|s| > 1 && (s[0] == 'e' || s[0] == 'E') &&
     AllDigits(if s[1] == '+' || s[1] == '-' then s[2..] else s[1..]))
  }

  /** An unsigned decimal literal: digits, a point, digits, an exponent. */
  predicate IsDecimal(s: string) {
    s == "Infinity" ||
    var i := DigitsEnd(s, 0);
    if i < |s| && s[i] == '.' then
      var j := DigitsEnd(s, i + 1);
      (i > 0 || j > i + 1) && IsExponent(s[j..])
    else i > 0 && IsExponent(s[i..])
  }

  predicate IsRadix(s: string) {
    && |s| > 2 && s[0] == '0'
    && (((s[1] == 'x' || s[1] == 'X') && forall k :: 2 <= k < |s| ==> IsHex(s[k]))
        || ((s[1] == 'o' || s[1] == 'O') && forall k :: 2 <= k < |s| ==> '0' <= s[k] <= '7')
        || ((s[1] == 'b' || s[1] == 'B') && forall k :: 2 <= k < |s| ==> '0' <= s[k] <= '1'))
  }

  /** Whether `Number` of a trimmed text is not NaN. */
  predicate IsNumeric(v: string) {
    || v == ""
    || IsRadix(v)
    || IsDecimal(if v[0] == '+' || v[0] == '-' then v[1..] else v)
  }

  function NumberOf(v: string): Json {
    if v == "" then Num(0) else if AllDigits(v) then Num(DigitsValue(v)) else OtherNumber(v)
  }

  // ── the printer ──

  function PrintStep(step: Step): seq<string> {
    match step
    case Shell(command) => ["  - shell: " + command]
    case Wait(ms) => ["  - wait: " + Decimal(if ms == 0 then 5000 else ms)]
    case Capture(lines, regex, name) =>
      ["  - capture:"]
      + (if lines != 0 then ["      lines: " + Decimal(lines)] else [])
      + (if regex != "" then ["      regex: " + regex] else [])
      + (if name != "" then ["      var: " + name] else [])
    case Keystroke(key) => ["  - keystroke: " + key]
  }

  function PrintSteps(steps: seq<Step>): seq<string> {
    if |steps| == 0 then [] else PrintSteps(steps[..|steps| - 1]) + PrintStep(steps[|steps| - 1])
  }

  function PrintHook(key: string, hook: Option<Hook>): seq<string> {
    match hook
    case None => []
    case Some(Pipeline(steps)) => [key + ":"] + PrintSteps(steps)
    case Some(Inline(text)) => if text == "" then [] else [key + ": " + text]
  }

  function PrintHooks(hooks: seq<Option<Hook>>): seq<string>
    requires |hooks| <= |HOOKS|
  {
    if |hooks| == 0 then []
    else PrintHooks(hooks[..|hooks| - 1]) + PrintHook(HOOKS[|hooks| - 1], hooks[|hooks| - 1])
  }

  function PrintActionStep(step: ActionStep): string {
    match step
    case Press(key) => "        - keystroke: " + key
    case Run(command) => "        - shell: " + command
  }

  function PrintActionSteps(steps: seq<ActionStep>): seq<string> {
    if |steps| == 0 then [] else PrintActionSteps(steps[..|steps| - 1]) + [PrintActionStep(steps[|steps| - 1])]
  }

  function PrintActions(actions: seq<Action>): seq<string> {
    if |actions| == 0 then []
    else
      var a := actions[|actions| - 1];
      PrintActions(actions[..|actions| - 1]) + (["      " + a.name + ":"] + PrintActionSteps(a.steps))
  }

  function PrintIndicator(def: Indicator): seq<string> {
    ["  " + def.id + ":"]
    + (if def.regex != "" then ["    regex: '" + def.regex + "'"] else [])
    + (if def.badge != "" then ["    badge: " + def.badge] else [])
    + (if def.style != "" then ["    style: " + def.style] else [])
    + (match def.actions
       case None => []
       case Some(actions) => ["    actions:"] + PrintActions(actions))
  }

  function PrintIndicators(defs: seq<Indicator>): seq<string> {
    if |defs| == 0 then [] else PrintIndicators(defs[..|defs| - 1]) + PrintIndicator(defs[|defs| - 1])
  }

  function PrintPattern(p: Pattern): seq<string> {
    match p
    case Regex(pattern) => ["    - '" + pattern + "'"]
    case Windowed(pattern, lines) =>
      ["    - pattern: '" + pattern + "'"]
      + (match lines case None => [] case Some(n) => ["      lines: " + Decimal(n)])
  }

  function PrintPatterns(ps: seq<Pattern>): seq<string> {
    if |ps| == 0 then [] else PrintPatterns(ps[..|ps| - 1]) + PrintPattern(ps[|ps| - 1])
  }

  function PrintPatternList(key: string, ps: seq<Pattern>): seq<string> {
    if |ps| == 0 then [] else ["  " + key + ":"] + PrintPatterns(ps)
  }

  function PrintNumber(key: string, n: Option<nat>): seq<string> {
    match n case None => [] case Some(k) => ["  " + key + ": " + Decimal(k)]
  }

  function PrintDetection(d: Detection): seq<string> {
    PrintPatternList("idlePatterns", d.idle) + PrintPatternList("activePatterns", d.active)
    + (if d.context != "" then ["  contextPattern: '" + d.context + "'"] else [])
    + PrintNumber("idleThreshold", d.idleThreshold)
    + PrintNumber("activeGraceMs", d.activeGraceMs)
    + PrintNumber("snapshotLines", d.snapshotLines)
    + (match d.autoRecover case None => [] case Some(b) => ["  autoRecover: " + if b then "true" else "false"])
  }

  function PrintButtons(buttons: seq<Button>): seq<string> {
    if |buttons| == 0 then []
    else
      var b := buttons[|buttons| - 1];
      PrintButtons(buttons[..|buttons| - 1]) + ([b.name + ":"] + PrintSteps(b.steps))
  }

  function PrintEnv(env: seq<EnvVar>): seq<string> {
    if |env| == 0 then []
    else PrintEnv(env[..|env| - 1]) + ["  " + env[|env| - 1].name + ": " + env[|env| - 1].value]
  }

  function PrintText(key: string, value: string): seq<string> {
    if value != "" then [key + ": " + value] else []
  }

  function PrintHead(c: Config): seq<string> {
    ["engine: " + c.engine] + PrintText("model", c.model) + PrintText("thinking", c.thinking)
    + PrintText("permissions", c.permissions)
  }

  function PrintIndicatorSection(defs: seq<Indicator>): seq<string> {
    if |defs| > 0 then ["indicators:"] + PrintIndicators(defs) else []
  }

  function PrintDetectionSection(d: Option<Detection>): seq<string> {
    match d case None => [] case Some(det) => ["detection:"] + PrintDetection(det)
  }

  function PrintEnvSection(env: seq<EnvVar>): seq<string> {
    if |env| > 0 then ["env:"] + PrintEnv(env) else []
  }

  /** One slot for each hook, and buttons without captures (those are printed as JSON). */
  predicate Printable(c: Config) {
    && |c.hooks| == |HOOKS|
    && forall b :: b in c.buttons ==> forall s :: s in b.steps ==> !s.Capture?
  }

  function PrintLines(c: Config): seq<string>
    requires Printable(c)
  {
    PrintHead(c) + PrintHooks(c.hooks) + PrintIndicatorSection(c.indicators) + PrintDetectionSection(c.detection)
    + PrintButtons(c.buttons) + PrintEnvSection(c.env)
  }

  // ── patterns the parser matches ──

  datatype KeyValue = KeyValue(key: string, value: string)

  function WordEnd(s: string, i: nat): (j: nat)
    requires i <= |s|
    ensures i <= j <= |s|
    ensures forall k :: i <= k < j ==> IsWord(s[k])
    ensures j < |s| ==> !IsWord(s[j])
    decreases |s| - i
  {
    if i < |s| && IsWord(s[i]) then WordEnd(s, i + 1) else i
  }

  predicate IsName(c: char) {
    !IsSpace(c) && c != ':'
  }

  function NameEnd(s: string, i: nat): (j: nat)
    requires i <= |s|
    ensures i <= j <= |s|
    ensures forall k :: i <= k < j ==> IsName(s[k])
    ensures j < |s| ==> !IsName(s[j])
    decreases |s| - i
  {
    if i < |s| && IsName(s[i]) then NameEnd(s, i + 1) else i
  }

  /** After the key: a colon, white space, and the rest of one line. */
  function AfterKey(s: string, j: nat): Option<KeyValue>
    requires j <= |s|
  {
    if j == 0 || j == |s| || s[j] != ':' then None
    else
      var rest := s[SkipSpace(s, j + 1)..];
      if OneLine(rest) then Some(KeyValue(s[..j], rest)) else None
  }

  /** `/^(\w+):\s*(.*)$/` */
  function KvMatch(s: string): Option<KeyValue> {
    AfterKey(s, WordEnd(s, 0))
  }

  /** `/^([^\s:]+):\s*(.*)$/` */
  function NameMatch(s: string): Option<KeyValue> {
    AfterKey(s, NameEnd(s, 0))
  }

  predicate Quoted(s: string) {
    |s| >= 2 && s[0] == '\'' && s[|s| - 1] == '\'' && OneLine(s[1..|s| - 1])
  }

  /** `replace(/^'(.*)'$/, '$1')` */
  function StripQuotes(s: string): string {
    if Quoted(s) then s[1..|s| - 1] else s
  }

  /** `search(/\S/)` */
  function Indent(line: string): int {
    var i := SkipSpace(line, 0);
    if i == |line| then -1 else i
  }

  /** `/^\s{n}\w+:/` */
  predicate KeyAt(s: string, n: nat) {
    && |s| > n && (forall i :: 0 <= i < n ==> IsSpace(s[i]))
    && n < WordEnd(s, n) < |s| && s[WordEnd(s, n)] == ':'
  }

  // Drops a leading dash and the white space after it.
  function DropDash(s: string): string {
    if |s| > 0 && s[0] == '-' then s[SkipSpace(s, 1)..] else s
  }

  // ── the parser ──

  datatype State = State(
    fields: Fields,
    key: Option<string>,
    steps: Option<seq<Json>>,
    inIndicators: bool,
    defs: seq<Json>,
    indicator: Option<map<string, Json>>,
    actionName: Option<string>,
    actionSteps: Option<seq<Json>>,
    inDetection: bool,
    detection: map<string, Json>,
    listKey: Option<string>,
    failed: bool)

  /** Assigning to `__proto__` makes no property of its own. */
  function SetProp(o: map<string, Json>, key: string, value: Json): map<string, Json> {
    if key == PROTO then o else o[key := value]
  }

  function HookIndex(key: string): (i: int)
    ensures -1 <= i < |HOOKS|
    ensures i >= 0 ==> HOOKS[i] == key
    ensures i == -1 ==> key !in HOOKS
  {
    if key == "start" then 0
    else if key == "resume" then 1
    else if key == "compact" then 2
    else if key == "exit" then 3
    else if key == "interrupt" then 4
    else if key == "reload" then 5
    else if key == "submit" then 6
    else -1
  }

  /** The field a top-level key names as a hook; an inherited name stands for the text of what it finds. */
  function HookField(key: string): Option<string> {
    if key in INHERITED then Some("inherited " + key)
    else if HookIndex(key) >= 0 then Some(HOOK_FIELDS[HookIndex(key)])
    else None
  }

  function FlushAction(p: State): State {
    var indicator :=
      if p.actionName.Some? && p.actionName.value != "" && p.actionSteps.Some? && p.indicator.Some? then
        var o := p.indicator.value;
        var actions := if "actions" in o && o["actions"].Obj? then o["actions"].props else map[];
        Some(o["actions" := Obj(SetProp(actions, p.actionName.value, Arr(p.actionSteps.value)))])
      else p.indicator;
    p.(indicator := indicator, actionName := None, actionSteps := None)
  }

  function FlushIndicator(p: State): State {
    var q := FlushAction(p);
    q.(defs := if q.indicator.Some? then q.defs + [Obj(q.indicator.value)] else q.defs, indicator := None)
  }

  function SaveSteps(p: State): State {
    p.(fields := if p.key.Some? && p.steps.Some? then p.fields[p.key.value := Encoded(Arr(p.steps.value))] else p.fields,
       key := None, steps := None)
  }

  function SaveIndicators(p: State): State {
    if p.inIndicators then
      var q := FlushIndicator(p);
      q.(fields := if |q.defs| > 0 then q.fields["indicators" := Encoded(Arr(q.defs))] else q.fields,
         inIndicators := false, defs := [])
    else p
  }

  function SaveDetection(p: State): State {
    if p.inDetection then
      p.(fields := p.fields["detection" := Encoded(Obj(p.detection))], inDetection := false, detection := map[], listKey := None)
    else p
  }

  /** What a new top-level key saves first. */
  function Flush(p: State): State {
    SaveDetection(SaveIndicators(SaveSteps(p)))
  }

  function Open(p: State, key: string, value: string): State {
    if HookField(key).Some? then
      if value != "" then p.(fields := p.fields[HookField(key).value := Plain(value)])
      else p.(key := HookField(key), steps := Some([]))
    else if key == "indicators" then p.(inIndicators := true)
    else if key == "detection" then p.(inDetection := true, detection := map[])
    else if key == "env" then p.(fields := p.fields["launchEnv" := EnvVars(map[])])
    else if value == "" then p.(key := Some(CUSTOM + key), steps := Some([]))
    else p.(fields := p.fields[key := Plain(value)])
  }

  const NUMERIC: set<string> := {"idleThreshold", "activeGraceMs", "snapshotLines"}
  const LISTS: set<string> := {"idlePatterns", "activePatterns"}

  function DetectionField(p: State, key: string, value: string): State {
    if key in LISTS then p.(detection := p.detection[key := Arr([])], listKey := Some(key))
    else if value == "" then p
    else
      var json :=
        if key in NUMERIC then Num(match ParseInt(value) case Some(n) => n case None => 0)
        else if key == "autoRecover" then Bool(value == "true")
        else Str(value);
      p.(detection := SetProp(p.detection, key, json), listKey := None)
  }

  function ListItems(p: State): Option<seq<Json>> {
    match p.listKey
    case None => None
    case Some(k) => if k in p.detection && p.detection[k].Arr? then Some(p.detection[k].items) else None
  }

  function SetItems(p: State, items: seq<Json>): State
    requires p.listKey.Some?
  {
    p.(detection := p.detection[p.listKey.value := Arr(items)])
  }

  function PatternItem(item: string): Json {
    match KvMatch(item)
    case Some(kv) =>
      if kv.key == "pattern" then Obj(map["pattern" := Str(StripQuotes(Trim(kv.value)))]) else Str(StripQuotes(item))
    case None => Str(StripQuotes(item))
  }

  /** `parseInt(v) || v.trim()` */
  function NumberOrText(value: string): Json {
    match ParseInt(value)
    case Some(n) => if n != 0 then Num(n) else Str(Trim(value))
    case None => Str(Trim(value))
  }

  function DetectionLine(p: State, indent: int, content: string): State {
    var kv := KvMatch(content);
    var items := ListItems(p);
    if indent == 2 && kv.Some? then DetectionField(p, kv.value.key, StripQuotes(Trim(kv.value.value)))
    else if indent == 4 && StartsWith(content, "- ") && items.Some? then
      SetItems(p, items.value + [PatternItem(DropDash(content))])
    else if indent == 6 && items.Some? && |items.value| > 0 then
      var last := items.value[|items.value| - 1];
      if last.Obj? && kv.Some? then
        var o := Obj(SetProp(last.props, kv.value.key, NumberOrText(kv.value.value)));
        SetItems(p, items.value[|items.value| - 1 := o])
      else p
    else p
  }

  function ActionStepItem(step: string): seq<Json> {
    match KvMatch(step)
    case Some(kv) =>
      if kv.key == "keystroke" then [Obj(map["type" := Str("keystroke"), "keystroke" := Str(Trim(kv.value))])]
      else if kv.key == "shell" then [Obj(map["type" := Str("shell"), "command" := Str(Trim(kv.value))])]
      else []
    case None => []
  }

  function IndicatorLine(p: State, indent: int, content: string): State {
    var kv := NameMatch(content);
    if indent == 2 && kv.Some? && !StartsWith(content, "-") then
      FlushIndicator(p).(indicator := Some(map["id" := Str(kv.value.key)]))
    else if indent == 4 && kv.Some? && p.indicator.Some? then
      if kv.value.key == "actions" then p
      else p.(indicator := Some(SetProp(p.indicator.value, kv.value.key, Str(StripQuotes(Trim(kv.value.value))))))
    else if indent == 6 && kv.Some? && p.indicator.Some? then
      FlushAction(p).(actionName := Some(kv.value.key), actionSteps := Some([]))
    else if indent >= 8 && StartsWith(content, "- ") && p.actionSteps.Some? then
      p.(actionSteps := Some(p.actionSteps.value + ActionStepItem(DropDash(content))))
    else p
  }

  function StepItem(step: string): seq<Json> {
    match KvMatch(step)
    case Some(kv) =>
      var v := Trim(kv.value);
      if kv.key == "shell" then [Obj(map["type" := Str("shell"), "command" := Str(v)])]
      else if kv.key == "wait" then [Obj(map["type" := Str("wait"), "ms" := Num(WaitMs(v))])]
      else if kv.key == "keystroke" then [Obj(map["type" := Str("keystroke"), "key" := Str(v)])]
      else if kv.key == "capture" then [EMPTY_CAPTURE]
      else []
    case None => []
  }

  const EMPTY_CAPTURE: Json := Obj(map["type" := Str("capture"), "lines" := Num(0), "regex" := Str(""), "var" := Str("")])

  /** `parseInt(v) || 5000` */
  function WaitMs(v: string): int {
    match ParseInt(v)
    case Some(n) => if n != 0 then n else 5000
    case None => 5000
  }

  predicate IsCapture(j: Json) {
    j.Obj? && "type" in j.props && j.props["type"] == Str("capture")
  }

  function CaptureField(j: Json, content: string): Json {
    if !IsCapture(j) then j
    else
      match KvMatch(content)
      case Some(kv) =>
        var v := Trim(kv.value);
        Obj(SetProp(j.props, kv.key, if IsNumeric(v) then NumberOf(v) else Str(v)))
      case None => j
  }

  function EnvLine(p: State, content: string): State
    requires "launchEnv" in p.fields
  {
    match KvMatch(content)
    case None => p
    case Some(kv) =>
      match p.fields["launchEnv"] {
        case EnvVars(vars) =>
          if kv.key == PROTO then p else p.(fields := p.fields["launchEnv" := EnvVars(vars[kv.key := Trim(kv.value)])])
        case _ => p.(failed := true)
      }
  }

  function ReadLine(p: State, line: string): State {
    var t := TrimEnd(line);
    var content := Trim(t);
    if p.failed then p
    else
      match KvMatch(t)
      case Some(kv) => Open(Flush(p), kv.key, Trim(kv.value))
      case None =>
        if p.inDetection then DetectionLine(p, Indent(line), content)
        else if p.inIndicators then IndicatorLine(p, Indent(line), content)
        else if StartsWith(t, "  - ") && p.steps.Some? then
          p.(steps := Some(p.steps.value + StepItem(DropDash(TrimStart(t)))))
        else if KeyAt(t, 6) && p.steps.Some? && |p.steps.value| > 0 then
          var n := |p.steps.value| - 1;
          p.(steps := Some(p.steps.value[n := CaptureField(p.steps.value[n], content)]))
        else if KeyAt(t, 2) && "launchEnv" in p.fields then EnvLine(p, content)
        else p
  }

  function Start(name: string): State {
    State(map["name" := Plain(name), "engine" := Plain("")], None, None, false, [], None, None, None, false, map[], None, false)
  }

  function ReadLines(p: State, lines: seq<string>): State {
    if |lines| == 0 then p else ReadLine(ReadLines(p, lines[..|lines| - 1]), lines[|lines| - 1])
  }

  predicate IsCustom(key: string) {
    StartsWith(key, CUSTOM)
  }

  function CustomNames(fields: Fields): (names: set<string>)
    ensures forall n :: n in names ==> CUSTOM + n in fields && fields[CUSTOM + n].Encoded?
  {
    var keys := set k | k in fields && IsCustom(k) && fields[k].Encoded?;
    assert forall k :: k in keys ==> k == CUSTOM + k[|CUSTOM|..];
    set k | k in keys && k[|CUSTOM|..] != PROTO :: k[|CUSTOM|..]
  }

  function CustomButtons(fields: Fields): map<string, Json> {
    map n | n in CustomNames(fields) :: fields[CUSTOM + n].json
  }

  /** Missing hooks become null, and the custom pipelines are gathered under one field. */
  function Gather(fields: Fields): Fields {
    var buttons := CustomButtons(fields);
    var nulls := map f | f in HOOK_FIELDS && f !in fields :: Null;
    var own := map k | k in fields && !IsCustom(k) :: fields[k];
    (own + nulls)["customButtons" := if buttons == map[] then Null else Encoded(Obj(buttons))]
  }

  /** None where the source throws. */
  function Parse(name: string, text: string): Option<Fields> {
    var p := ReadLines(Start(name), SplitLines(text));
    if p.failed then None else Some(Gather(Flush(p).fields))
  }
}
