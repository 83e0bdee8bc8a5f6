/** The printer pushing onto a line array, and the parser looping over lines. */
module EngineYamlCode {
  import opened Options
  import opened JsText
  import opened EngineYaml

  lemma PrefixOne<T>(s: seq<T>, i: nat)
    requires i < |s|
    ensures s[..i + 1][..|s[..i + 1]| - 1] == s[..i] && s[..i + 1][|s[..i + 1]| - 1] == s[i]
  {
  }

  lemma Assoc<T>(a: seq<T>, b: seq<T>, c: seq<T>)
    ensures a + b + c == a + (b + c)
  {
  }

  method StepLines(step: Step) returns (own: seq<string>)
    ensures own == PrintStep(step)
  {
    match step {
      case Shell(command) => own := ["  - shell: " + command];
      case Wait(ms) => own := ["  - wait: " + Decimal(if ms == 0 then 5000 else ms)];
      case Capture(n, regex, name) => {
        own := ["  - capture:"];
        if n != 0 { own := own + ["      lines: " + Decimal(n)]; }
        if regex != "" { own := own + ["      regex: " + regex]; }
        if name != "" { own := own + ["      var: " + name]; }
      }
      case Keystroke(key) => own := ["  - keystroke: " + key];
    }
  }

  /** Pushes the lines of each step. */
  method PushSteps(steps: seq<Step>, lines: seq<string>) returns (out: seq<string>)
    ensures out == lines + PrintSteps(steps)
  {
    hide PrintStep;
    out := lines;
    for i := 0 to |steps|
      invariant out == lines + PrintSteps(steps[..i])
    {
      PrefixOne(steps, i);
      var own := StepLines(steps[i]);
      Assoc(lines, PrintSteps(steps[..i]), own);
      out := out + own;
    }
    assert steps[..|steps|] == steps;
  }

  method PushHooks(hooks: seq<Option<Hook>>, lines: seq<string>) returns (out: seq<string>)
    requires |hooks| == |HOOKS|
    ensures out == lines + PrintHooks(hooks)
  {
    hide PrintSteps;
    out := lines;
    for i := 0 to |HOOKS|
      invariant out == lines + PrintHooks(hooks[..i])
    {
      PrefixOne(hooks, i);
      match hooks[i] {
        case None =>
        case Some(Pipeline(steps)) => {
          out := out + [HOOKS[i] + ":"];
          out := PushSteps(steps, out);
        }
        case Some(Inline(text)) => {
          if text != "" { out := out + [HOOKS[i] + ": " + text]; }
        }
      }
    }
    assert hooks[..|HOOKS|] == hooks;
  }

  method PushActions(actions: seq<Action>, lines: seq<string>) returns (out: seq<string>)
    ensures out == lines + PrintActions(actions)
  {
    out := lines;
    for i := 0 to |actions|
      invariant out == lines + PrintActions(actions[..i])
    {
      PrefixOne(actions, i);
      var steps := actions[i].steps;
      ghost var before := out;
      out := out + ["      " + actions[i].name + ":"];
      for j := 0 to |steps|
        invariant out == before + (["      " + actions[i].name + ":"] + PrintActionSteps(steps[..j]))
      {
        PrefixOne(steps, j);
        out := out + [PrintActionStep(steps[j])];
      }
      assert steps[..|steps|] == steps;
    }
    assert actions[..|actions|] == actions;
  }

  method IndicatorLines(def: Indicator) returns (own: seq<string>)
    ensures own == PrintIndicator(def)
  {
    hide PrintActions;
    own := ["  " + def.id + ":"];
    if def.regex != "" { own := own + ["    regex: '" + def.regex + "'"]; }
    if def.badge != "" { own := own + ["    badge: " + def.badge]; }
    if def.style != "" { own := own + ["    style: " + def.style]; }
    match def.actions {
      case None =>
      case Some(actions) => {
        var some := PushActions(actions, ["    actions:"]);
        own := own + some;
      }
    }
  }

  method PushIndicators(defs: seq<Indicator>, lines: seq<string>) returns (out: seq<string>)
    ensures out == lines + PrintIndicatorSection(defs)
  {
    hide PrintIndicator;
    out := lines;
    if |defs| == 0 {
      return;
    }
    out := out + ["indicators:"];
    for i := 0 to |defs|
      invariant out == lines + (["indicators:"] + PrintIndicators(defs[..i]))
    {
      PrefixOne(defs, i);
      var own := IndicatorLines(defs[i]);
      Assoc(lines, ["indicators:"] + PrintIndicators(defs[..i]), own);
      Assoc(["indicators:"], PrintIndicators(defs[..i]), own);
      out := out + own;
    }
    assert defs[..|defs|] == defs;
  }

  method PushPatterns(key: string, ps: seq<Pattern>, lines: seq<string>) returns (out: seq<string>)
    ensures out == lines + PrintPatternList(key, ps)
  {
    out := lines;
    if |ps| == 0 {
      return;
    }
    out := out + ["  " + key + ":"];
    for i := 0 to |ps|
      invariant out == lines + (["  " + key + ":"] + PrintPatterns(ps[..i]))
    {
      PrefixOne(ps, i);
      match ps[i] {
        case Regex(p) => out := out + ["    - '" + p + "'"];
        case Windowed(p, n) => {
          out := out + ["    - pattern: '" + p + "'"];
          if n.Some? { out := out + ["      lines: " + Decimal(n.value)]; }
        }
      }
    }
    assert ps[..|ps|] == ps;
  }

  method DetectionLines(d: Detection) returns (own: seq<string>)
    ensures own == PrintDetection(d)
  {
    hide PrintPatternList, PrintNumber, Decimal;
    own := PushPatterns("idlePatterns", d.idle, []);
    own := PushPatterns("activePatterns", d.active, own);
    if d.context != "" { own := own + ["  contextPattern: '" + d.context + "'"]; }
    own := PushNumber("idleThreshold", d.idleThreshold, own);
    own := PushNumber("activeGraceMs", d.activeGraceMs, own);
    own := PushNumber("snapshotLines", d.snapshotLines, own);
    if d.autoRecover.Some? { own := own + ["  autoRecover: " + if d.autoRecover.value then "true" else "false"]; }
  }

  method PushNumber(key: string, n: Option<nat>, lines: seq<string>) returns (out: seq<string>)
    ensures out == lines + PrintNumber(key, n)
  {
    out := lines;
    if n.Some? { out := out + ["  " + key + ": " + Decimal(n.value)]; }
  }

  method PushButtons(buttons: seq<Button>, lines: seq<string>) returns (out: seq<string>)
    ensures out == lines + PrintButtons(buttons)
  {
    hide PrintSteps;
    out := lines;
    for i := 0 to |buttons|
      invariant out == lines + PrintButtons(buttons[..i])
    {
      PrefixOne(buttons, i);
      out := out + [buttons[i].name + ":"];
      out := PushSteps(buttons[i].steps, out);
    }
    assert buttons[..|buttons|] == buttons;
  }

  method PushEnv(env: seq<EnvVar>, lines: seq<string>) returns (out: seq<string>)
    ensures out == lines + PrintEnvSection(env)
  {
    out := lines;
    if |env| == 0 {
      return;
    }
    out := out + ["env:"];
    for i := 0 to |env|
      invariant out == lines + (["env:"] + PrintEnv(env[..i]))
    {
      PrefixOne(env, i);
      out := out + ["  " + env[i].name + ": " + env[i].value];
    }
    assert env[..|env|] == env;
  }

  method ConfigToYaml(c: Config) returns (yaml: string)
    requires Printable(c)
    ensures yaml == Join(PrintLines(c))
  {
    hide PrintHead, PrintHooks, PrintIndicatorSection, PrintDetection, PrintButtons, PrintEnvSection, Join;
    var lines := HeadLines(c);
    lines := PushHooks(c.hooks, lines);
    lines := PushIndicators(c.indicators, lines);
    if c.detection.Some? {
      var own := DetectionLines(c.detection.value);
      lines := lines + (["detection:"] + own);
    } else {
      assert lines == lines + PrintDetectionSection(c.detection);
    }
    lines := PushButtons(c.buttons, lines);
    lines := PushEnv(c.env, lines);
    yaml := Join(lines);
  }

  method HeadLines(c: Config) returns (lines: seq<string>)
    ensures lines == PrintHead(c)
  {
    lines := ["engine: " + c.engine];
    lines := PushText("model", c.model, lines);
    lines := PushText("thinking", c.thinking, lines);
    lines := PushText("permissions", c.permissions, lines);
  }

  method PushText(key: string, value: string, lines: seq<string>) returns (out: seq<string>)
    ensures out == lines + PrintText(key, value)
  {
    out := lines;
    if value != "" { out := out + [key + ": " + value]; }
  }

  method YamlToConfig(yaml: string, name: string) returns (fields: Option<Fields>)
    ensures fields == Parse(name, yaml)
  {
    hide ReadLine, SplitLines, Gather, Flush;
    var lines := SplitLines(yaml);
    var p := Start(name);
    for i := 0 to |lines|
      invariant p == ReadLines(Start(name), lines[..i])
    {
      PrefixOne(lines, i);
      p := ReadLine(p, lines[i]);
    }
    assert lines[..|lines|] == lines;
    fields := if p.failed then None else Some(Gather(Flush(p).fields));
  }
}
