/** The Telegram block of a persona's raw frontmatter: written, read back, and normalised. */
module TelegramFrontmatter {
  import opened Options
  import opened JsText

  datatype Routing = Self | Prefix | Passthrough

  datatype Config = Config(chatId: string, inbound: bool, routing: Routing)

  const HEADER := "telegram:"

  function RoutingText(r: Routing): string {
    match r case Self => "self" case Prefix => "prefix" case Passthrough => "passthrough"
  }

  /** Anything but a known mode is 'self'. */
  function RoutingOf(s: string): Routing {
    if s == "prefix" then Prefix else if s == "passthrough" then Passthrough else Self
  }

  // ── chat ids ──

  predicate AllWord(s: string) {
    |s| > 0 && forall i :: 0 <= i < |s| ==> IsWord(s[i])
  }

  /** A number, perhaps negative, or an @channel name, after trimming. */
  predicate IsValidChatId(chatId: string) {
    var t := Trim(chatId);
    || AllDigits(t)
    || (|t| > 0 && t[0] == '-' && AllDigits(t[1..]))
    || (|t| > 0 && t[0] == '@' && AllWord(t[1..]))
  }

  /** A pair of equal quotes around a text is taken away, once. */
  function StripQuotes(s: string): string {
    if |s| >= 2 && (s[0] == '"' || s[0] == '\'') && s[|s| - 1] == s[0] then s[1..|s| - 1] else s
  }

  // ── lines ──

  /** A header with nothing after it. */
  predicate BlockHeader(line: string) {
    StartsWith(line, HEADER) && SkipSpace(line, |HEADER|) == |line|
  }

  /** A header with white space and then an inline value. */
  predicate InlineHeader(line: string) {
    StartsWith(line, HEADER) && |HEADER| < SkipSpace(line, |HEADER|) < |line|
  }

  predicate IsHeader(line: string) {
    BlockHeader(line) || InlineHeader(line)
  }

  predicate IsBlank(line: string) {
    Trim(line) == ""
  }

  function Indent(line: string): nat {
    |line| - |TrimStart(line)|
  }

  /** A line that stays inside the block that it follows. */
  predicate IsSoft(line: string) {
    IsBlank(line) || Indent(line) > 0
  }

  predicate IsKeyStart(c: char) {
    'a' <= c <= 'z' || 'A' <= c <= 'Z' || c == '_'
  }

  function KeyEnd(s: string, i: nat): (j: nat)
    requires i <= |s|
    ensures i <= j <= |s|
    ensures forall k :: i <= k < j ==> IsWord(s[k]) || s[k] == '-'
    ensures j < |s| ==> !IsWord(s[j]) && s[j] != '-'
    decreases |s| - i
  {
    if i < |s| && (IsWord(s[i]) || s[i] == '-') then KeyEnd(s, i + 1) else i
  }

  /** An indented `key: value`; the value is the rest of the line. */
  function MatchChild(line: string): Option<(string, string)> {
    var i := SkipSpace(line, 0);
    if i == 0 || i == |line| || !IsKeyStart(line[i]) then None
    else
      var j := KeyEnd(line, i);
      var k := SkipSpace(line, j);
      if k == |line| || line[k] != ':' then None
      else
        var rest := line[SkipSpace(line, k + 1)..];
        if OneLine(rest) then Some((line[i..j], rest)) else None
  }

  // ── reading ──

  function HeaderIndex(lines: seq<string>, from: nat): (i: int)
    requires from <= |lines|
    ensures i == -1 || from <= i < |lines|
    ensures i >= 0 ==> BlockHeader(lines[i]) && forall k :: from <= k < i ==> !BlockHeader(lines[k])
    ensures i == -1 ==> forall k :: from <= k < |lines| ==> !BlockHeader(lines[k])
    decreases |lines| - from
  {
    if from == |lines| then -1
    else if BlockHeader(lines[from]) then from
    else HeaderIndex(lines, from + 1)
  }

  function AddChild(child: map<string, string>, line: string): map<string, string> {
    match MatchChild(line)
    case Some((key, value)) => child[key := StripQuotes(Trim(value))]
    case None => child
  }

  function Children(lines: seq<string>, i: nat, child: map<string, string>): map<string, string>
    requires i <= |lines|
    decreases |lines| - i
  {
    if i == |lines| then child
    else if IsBlank(lines[i]) then Children(lines, i + 1, child)
    else if Indent(lines[i]) == 0 then child
    else Children(lines, i + 1, AddChild(child, lines[i]))
  }

  function Get(child: map<string, string>, key: string): string {
    if key in child then child[key] else ""
  }

  function FromChildren(child: map<string, string>): Config {
    Config(Get(child, "chatId"), Get(child, "inbound") != "false", RoutingOf(Get(child, "routing")))
  }

  function ParseLines(lines: seq<string>): Option<Config> {
    var h := HeaderIndex(lines, 0);
    if h == -1 then None else Some(FromChildren(Children(lines, h + 1, map[])))
  }

  function Parse(raw: string): Option<Config> {
    ParseLines(SplitLines(raw))
  }

  // ── writing ──

  /** The lines left when every block is dropped: `skipping` says that the last header is still open. */
  function Kept(lines: seq<string>): (r: (seq<string>, bool))
  {
    if |lines| == 0 then ([], false)
    else
      var (kept, skipping) := Kept(lines[..|lines| - 1]);
      var line := lines[|lines| - 1];
      if skipping && IsSoft(line) then (kept, true)
      else if IsHeader(line) then (kept, true)
      else (kept + [line], false)
  }

  function DropBlankEnd(lines: seq<string>): seq<string> {
    if |lines| > 0 && IsBlank(lines[|lines| - 1]) then DropBlankEnd(lines[..|lines| - 1]) else lines
  }

  function ChatLine(cfg: Config): string {
    "  chatId: \"" + Trim(cfg.chatId) + "\""
  }

  function InboundLine(cfg: Config): string {
    "  inbound: " + if cfg.inbound then "true" else "false"
  }

  function RoutingLine(cfg: Config): string {
    "  routing: " + RoutingText(cfg.routing)
  }

  function Block(cfg: Config): seq<string> {
    [HEADER, ChatLine(cfg), InboundLine(cfg), RoutingLine(cfg)]
  }

  predicate Writes(cfg: Option<Config>) {
    cfg.Some? && IsValidChatId(cfg.value.chatId)
  }

  function SetLines(lines: seq<string>, cfg: Option<Config>): seq<string> {
    var kept := Kept(lines).0;
    if Writes(cfg) then DropBlankEnd(kept) + Block(cfg.value) else kept
  }

  function Set(raw: string, cfg: Option<Config>): string {
    Join(SetLines(SplitLines(raw), cfg))
  }

  // ── the loops ──

  method SetFrontmatterTelegram(raw: string, cfg: Option<Config>) returns (out: string)
    ensures out == Set(raw, cfg)
  {
    hide IsSoft, IsHeader, Join, SplitLines, IsBlank, IsValidChatId, Block;
    var lines := SplitLines(raw);
    var kept: seq<string> := [];
    var skipping := false;
    for i := 0 to |lines|
      invariant (kept, skipping) == Kept(lines[..i])
    {
      var line := lines[i];
      KeptGrows(lines, i);
      if skipping {
        if IsSoft(line) {
          continue;
        }
        skipping := false;
      }
      if IsHeader(line) {
        skipping := true;
        continue;
      }
      kept := kept + [line];
    }
    assert lines[..|lines|] == lines;
    if cfg.Some? && IsValidChatId(cfg.value.chatId) {
      ghost var all := kept;
      while |kept| > 0 && IsBlank(kept[|kept| - 1])
        invariant DropBlankEnd(all) == DropBlankEnd(kept)
      {
        kept := kept[..|kept| - 1];
      }
      kept := kept + Block(cfg.value);
    }
    out := Join(kept);
  }

  lemma KeptGrows(lines: seq<string>, i: nat)
    requires i < |lines|
    ensures lines[..i + 1][..i] == lines[..i] && lines[..i + 1][i] == lines[i]
  {
  }

  method ParseFrontmatterTelegram(raw: string) returns (cfg: Option<Config>)
    ensures cfg == Parse(raw)
  {
    hide IsBlank, Indent, AddChild, SplitLines, FromChildren;
    var lines := SplitLines(raw);
    var h := HeaderIndex(lines, 0);
    if h == -1 {
      return None;
    }
    var child := map[];
    var i := h + 1;
    while i < |lines|
      invariant h + 1 <= i <= |lines|
      invariant Children(lines, h + 1, map[]) == Children(lines, i, child)
    {
      var line := lines[i];
      if !IsBlank(line) {
        if Indent(line) == 0 {
          return Some(FromChildren(child));
        }
        child := AddChild(child, line);
      }
      i := i + 1;
    }
    cfg := Some(FromChildren(child));
  }

  // ── what is kept ──

  /** Below a header with nothing but soft lines between. */
  ghost predicate Inside(lines: seq<string>, i: nat)
    requires i < |lines|
  {
    exists h :: 0 <= h <= i && OpensTo(lines, h, i)
  }

  ghost predicate OpensTo(lines: seq<string>, h: nat, i: nat)
    requires h <= i < |lines|
  {
    IsHeader(lines[h]) && forall k :: h < k <= i ==> IsSoft(lines[k])
  }

  /** The lines outside every block, in order. */
  ghost function Outside(lines: seq<string>, n: nat): seq<string>
    requires n <= |lines|
  {
    if n == 0 then []
    else if Inside(lines, n - 1) then Outside(lines, n - 1)
    else Outside(lines, n - 1) + [lines[n - 1]]
  }

  lemma {:induction false} KeptIsOutside(lines: seq<string>, n: nat)
    requires n <= |lines|
    ensures Kept(lines[..n]).0 == Outside(lines, n)
    ensures Kept(lines[..n]).1 <==> n > 0 && Inside(lines, n - 1)
  {
    hide IsSoft, IsHeader;
    if n > 0 {
      KeptIsOutside(lines, n - 1);
      KeptGrows(lines, n - 1);
      InsideGrows(lines, n - 1);
    }
  }

  lemma InsideGrows(lines: seq<string>, i: nat)
    requires i < |lines|
    ensures Inside(lines, i) <==> IsHeader(lines[i]) || (i > 0 && Inside(lines, i - 1) && IsSoft(lines[i]))
  {
    hide IsSoft, IsHeader;
    if IsHeader(lines[i]) {
      assert OpensTo(lines, i, i);
    }
    if i > 0 && Inside(lines, i - 1) && IsSoft(lines[i]) {
      var h :| 0 <= h <= i - 1 && OpensTo(lines, h, i - 1);
      assert OpensTo(lines, h, i);
    }
    if Inside(lines, i) && !IsHeader(lines[i]) {
      var h :| 0 <= h <= i && OpensTo(lines, h, i);
      assert h < i && OpensTo(lines, h, i - 1);
    }
  }

  ghost predicate NoHeaders(lines: seq<string>) {
    forall l :: l in lines ==> !IsHeader(l)
  }

  lemma {:induction false} KeptHasNoHeaders(lines: seq<string>)
    ensures NoHeaders(Kept(lines).0)
    ensures forall l :: l in Kept(lines).0 ==> l in lines
  {
    hide IsSoft, IsHeader;
    if |lines| > 0 {
      KeptHasNoHeaders(lines[..|lines| - 1]);
    }
  }

  /** Without a header nothing is dropped. */
  lemma {:induction false} KeepsAll(lines: seq<string>)
    requires NoHeaders(lines)
    ensures Kept(lines) == (lines, false)
  {
    hide IsSoft, IsHeader;
    if |lines| > 0 {
      KeepsAll(lines[..|lines| - 1]);
      assert lines == lines[..|lines| - 1] + [lines[|lines| - 1]];
    }
  }

  lemma {:induction false} DropBlankEndFacts(lines: seq<string>)
    ensures |DropBlankEnd(lines)| > 0 ==> !IsBlank(DropBlankEnd(lines)[|DropBlankEnd(lines)| - 1])
    ensures |DropBlankEnd(lines)| <= |lines| && DropBlankEnd(lines) == lines[..|DropBlankEnd(lines)|]
    ensures forall i :: |DropBlankEnd(lines)| <= i < |lines| ==> IsBlank(lines[i])
  {
    hide IsBlank;
    if |lines| > 0 && IsBlank(lines[|lines| - 1]) {
      DropBlankEndFacts(lines[..|lines| - 1]);
    }
  }

  // ── the lines of a block ──

  /** A line that belongs to the block above it and says something. */
  ghost predicate GoodChild(line: string) {
    IsSoft(line) && !IsBlank(line) && Indent(line) > 0 && !IsHeader(line) && NoBreak(line)
  }

  lemma TwoDeep(body: string)
    requires |body| > 0 && !IsSpace(body[0]) && OneLine(body)
    ensures SkipSpace("  " + body, 0) == 2 && GoodChild("  " + body)
  {
    var line := "  " + body;
    assert line[0] == ' ' && line[1] == ' ' && line[2] == body[0];
    assert SkipSpace(line, 0) == SkipSpace(line, 1) == SkipSpace(line, 2) == 2;
    NotBlank(line, 2);
    assert !IsHeader(line) by { NotHeader(line); }
    forall k | 0 <= k < |line| ensures line[k] != '\n' {
      if k >= 2 { assert line[k] == body[k - 2]; }
    }
  }

  lemma NotHeader(line: string)
    requires |line| > 0 && line[0] != 't'
    ensures !IsHeader(line)
  {
    assert HEADER[0] == 't';
    assert |line| >= |HEADER| ==> line[..|HEADER|][0] == line[0];
  }

  /** After the key: the colon, a space, and the value. */
  lemma ValueAfter(line: string, j: nat, value: string)
    requires j + 2 < |line| && line[j] == ':' && line[j + 1] == ' ' && line[j + 2..] == value
    requires |value| > 0 && Trimmed(value)
    ensures SkipSpace(line, j) == j && SkipSpace(line, j + 1) == j + 2
  {
    assert line[j + 2] == value[0];
    assert SkipSpace(line, j + 1) == SkipSpace(line, j + 2);
  }

  /** A text with no quotes, spaces or line ends that matter. */
  ghost predicate PlainValue(v: string) {
    |v| > 0 && Trimmed(v) && OneLine(v)
  }

  /** A line of the block: two spaces, a key, and a value that is one trimmed text. */
  lemma ChildLine(key: string, value: string)
    requires AllWord(key) && IsKeyStart(key[0]) && PlainValue(value)
    ensures MatchChild("  " + (key + ": " + value)) == Some((key, value)) && GoodChild("  " + (key + ": " + value))
    ensures Trim(value) == value
  {
    hide GoodChild, OneLine, Trim;
    var body := key + ": " + value;
    var line := "  " + body;
    var j := 2 + |key|;
    assert body[0] == key[0] && IsWord(key[0]);
    BodyOneLine(key, value);
    TwoDeep(body);
    assert line[2] == key[0];
    assert forall k :: 0 <= k < |key| ==> line[2 + k] == key[k] by { CharsOfKey(key, value); }
    assert line[j] == ':' && line[j + 1] == ' ' && line[j + 2..] == value && line[2..j] == key;
    KeyRun(line, 2, key);
    ValueAfter(line, j, value);
    TrimKeepsTrimmed(value);
  }

  lemma CharsOfKey(key: string, value: string)
    ensures forall k :: 0 <= k < |key| ==> ("  " + (key + ": " + value))[2 + k] == key[k]
  {
  }

  lemma BodyOneLine(key: string, value: string)
    requires AllWord(key) && OneLine(value)
    ensures OneLine(key + ": " + value)
  {
    var body := key + ": " + value;
    forall k | 0 <= k < |body| ensures !IsLineEnd(body[k]) {
      if k < |key| {
        assert body[k] == key[k] && IsWord(key[k]);
      } else if k >= |key| + 2 {
        assert body[k] == value[k - |key| - 2];
      }
    }
  }

  lemma KeyRun(line: string, i: nat, key: string)
    requires i + |key| < |line| && (forall k :: 0 <= k < |key| ==> line[i + k] == key[k] && IsWord(key[k]))
    requires line[i + |key|] == ':'
    ensures KeyEnd(line, i) == i + |key|
  {
    var j := KeyEnd(line, i);
    assert forall k :: i <= k < i + |key| ==> line[k] == key[k - i];
  }

  lemma NotBlank(line: string, i: nat)
    requires i < |line| && !IsSpace(line[i])
    ensures !IsBlank(line)
  {
    var t := TrimStart(line);
    var a := SkipSpace(line, 0);
    assert a <= i;
    assert t[i - a] == line[i];
    var e := TextEnd(t, |t|);
    assert e > i - a;
  }

  lemma ChatIdText(cfg: Config)
    requires IsValidChatId(cfg.chatId)
    ensures var t := Trim(cfg.chatId); |t| > 0 && Trimmed(t) && OneLine(t) && StripQuotes(t) == t
  {
    TrimIsTrimmed(cfg.chatId);
    var t := Trim(cfg.chatId);
    if AllDigits(t) {
    } else {
      assert forall i :: 0 <= i < |t| - 1 ==> t[1..][i] == t[i + 1];
      assert forall i :: 1 <= i < |t| ==> IsWord(t[i]) by {
        forall i | 1 <= i < |t| ensures IsWord(t[i]) {
          assert t[i] == t[1..][i - 1];
        }
      }
    }
  }

  lemma QuotedChatId(t: string)
    requires |t| > 0 && Trimmed(t) && OneLine(t)
    ensures var q := "\"" + t + "\""; Trimmed(q) && OneLine(q) && StripQuotes(q) == t && |q| > 0
  {
    var q := "\"" + t + "\"";
    assert q[0] == '"' && q[|q| - 1] == '"' && q[1..|q| - 1] == t;
    forall i | 0 <= i < |q| ensures !IsLineEnd(q[i]) {
      if 0 < i < |q| - 1 {
        assert q[i] == t[i - 1];
      }
    }
  }

  /** The three children of a written block, as read. */
  function Written(cfg: Config): map<string, string> {
    map["chatId" := Trim(cfg.chatId), "inbound" := if cfg.inbound then "true" else "false",
        "routing" := RoutingText(cfg.routing)]
  }

  lemma WordIsPlain(v: string)
    requires AllWord(v)
    ensures PlainValue(v) && StripQuotes(v) == v
  {
    assert IsWord(v[0]) && IsWord(v[|v| - 1]);
    forall i | 0 <= i < |v| ensures !IsLineEnd(v[i]) {
      assert IsWord(v[i]);
    }
  }

  lemma RoutingIsWord(r: Routing)
    ensures AllWord(RoutingText(r))
  {
  }

  lemma ChatChild(cfg: Config)
    requires IsValidChatId(cfg.chatId)
    ensures GoodChild(ChatLine(cfg))
    ensures forall child :: AddChild(child, ChatLine(cfg)) == child["chatId" := Trim(cfg.chatId)]
  {
    hide MatchChild, GoodChild, IsValidChatId, Trim, StripQuotes, OneLine, Trimmed;
    ChatIdText(cfg);
    var q := "\"" + Trim(cfg.chatId) + "\"";
    QuotedChatId(Trim(cfg.chatId));
    assert AllWord("chatId") && IsKeyStart("chatId"[0]);
    ChildLine("chatId", q);
    assert "  " + ("chatId" + ": " + q) == ChatLine(cfg);
  }

  lemma InboundChild(cfg: Config)
    ensures GoodChild(InboundLine(cfg))
    ensures forall child :: AddChild(child, InboundLine(cfg)) == child["inbound" := if cfg.inbound then "true" else "false"]
  {
    hide MatchChild, GoodChild, Trim, StripQuotes, PlainValue;
    var v := if cfg.inbound then "true" else "false";
    assert AllWord(v);
    WordIsPlain(v);
    assert AllWord("inbound") && IsKeyStart("inbound"[0]);
    ChildLine("inbound", v);
    assert "  " + ("inbound" + ": " + v) == InboundLine(cfg);
  }

  lemma RoutingChild(cfg: Config)
    ensures GoodChild(RoutingLine(cfg))
    ensures forall child :: AddChild(child, RoutingLine(cfg)) == child["routing" := RoutingText(cfg.routing)]
  {
    hide MatchChild, GoodChild, Trim, StripQuotes, PlainValue;
    var v := RoutingText(cfg.routing);
    RoutingIsWord(cfg.routing);
    WordIsPlain(v);
    assert AllWord("routing") && IsKeyStart("routing"[0]);
    ChildLine("routing", v);
    assert "  " + ("routing" + ": " + v) == RoutingLine(cfg);
  }

  lemma BlockChildren(cfg: Config)
    requires IsValidChatId(cfg.chatId)
    ensures GoodChild(ChatLine(cfg)) && GoodChild(InboundLine(cfg)) && GoodChild(RoutingLine(cfg))
    ensures AddChild(AddChild(AddChild(map[], ChatLine(cfg)), InboundLine(cfg)), RoutingLine(cfg)) == Written(cfg)
  {
    hide GoodChild, AddChild, IsValidChatId, ChatLine, InboundLine, RoutingLine, Trim;
    ChatChild(cfg);
    InboundChild(cfg);
    RoutingChild(cfg);
  }

  lemma HeaderIsHeader()
    ensures BlockHeader(HEADER) && IsHeader(HEADER) && !IsBlank(HEADER) && NoBreak(HEADER)
  {
    assert SkipSpace(HEADER, |HEADER|) == |HEADER|;
    NotBlank(HEADER, 0);
  }

  lemma WrittenIsConfig(cfg: Config)
    requires IsValidChatId(cfg.chatId)
    ensures FromChildren(Written(cfg)) == cfg.(chatId := Trim(cfg.chatId))
  {
    hide IsValidChatId, Trim;
    assert "true" != "false" by { assert "true"[0] != "false"[0]; }
    RoutingRoundTrip(cfg.routing);
  }

  lemma RoutingRoundTrip(r: Routing)
    ensures RoutingOf(RoutingText(r)) == r
  {
    assert "self"[0] != "prefix"[0] && "self"[0] != "passthrough"[0] && "prefix"[1] != "passthrough"[1];
  }

  // ── laws on lines ──

  lemma ChildStep(lines: seq<string>, i: nat, child: map<string, string>)
    requires i < |lines| && GoodChild(lines[i])
    ensures Children(lines, i, child) == Children(lines, i + 1, AddChild(child, lines[i]))
  {
    hide IsBlank, Indent, IsSoft, IsHeader, AddChild;
  }

  lemma ReadsBlock(kept: seq<string>, cfg: Config)
    requires NoHeaders(kept) && IsValidChatId(cfg.chatId)
    ensures ParseLines(kept + Block(cfg)) == Some(cfg.(chatId := Trim(cfg.chatId)))
  {
    hide AddChild, IsValidChatId, Trim, IsHeader, BlockHeader, GoodChild, ChatLine, InboundLine, RoutingLine, Children,
         FromChildren, Written;
    var lines := kept + Block(cfg);
    var n := |kept|;
    HeaderIsHeader();
    BlockChildren(cfg);
    assert lines[n] == HEADER && lines[n + 1] == ChatLine(cfg) && lines[n + 2] == InboundLine(cfg)
           && lines[n + 3] == RoutingLine(cfg) && |lines| == n + 4;
    forall k | 0 <= k < n ensures !BlockHeader(lines[k]) {
      assert lines[k] in kept;
      NoHeaderNoBlock(lines[k]);
    }
    assert HeaderIndex(lines, 0) == n;
    var c1 := AddChild(map[], lines[n + 1]);
    var c2 := AddChild(c1, lines[n + 2]);
    ChildStep(lines, n + 1, map[]);
    ChildStep(lines, n + 2, c1);
    ChildStep(lines, n + 3, c2);
    NoMoreChildren(lines, Written(cfg));
    WrittenIsConfig(cfg);
  }

  lemma NoMoreChildren(lines: seq<string>, child: map<string, string>)
    ensures Children(lines, |lines|, child) == child
  {
  }

  lemma NoHeaderNoBlock(line: string)
    requires !IsHeader(line)
    ensures !BlockHeader(line)
  {
  }

  lemma KeptStep(lines: seq<string>, line: string)
    ensures Kept(lines).1 && IsSoft(line) ==> Kept(lines + [line]) == Kept(lines)
    ensures IsHeader(line) && !(Kept(lines).1 && IsSoft(line)) ==> Kept(lines + [line]) == (Kept(lines).0, true)
  {
    hide IsSoft, IsHeader;
    assert (lines + [line])[..|lines|] == lines;
  }

  /** Reading past a block: what was kept before it is kept again, the block is not. */
  lemma KeepsBeforeBlock(kept: seq<string>, cfg: Config)
    requires NoHeaders(kept) && IsValidChatId(cfg.chatId)
    ensures Kept(kept + Block(cfg)) == (kept, true)
  {
    hide IsSoft, IsHeader, IsValidChatId, GoodChild, ChatLine, InboundLine, RoutingLine, Kept, NoHeaders;
    BlockParts(cfg);
    KeepsAll(kept);
    var l0 := kept + [HEADER];
    var l1 := l0 + [ChatLine(cfg)];
    var l2 := l1 + [InboundLine(cfg)];
    KeptStep(kept, HEADER);
    KeptStep(l0, ChatLine(cfg));
    KeptStep(l1, InboundLine(cfg));
    KeptStep(l2, RoutingLine(cfg));
    assert kept + Block(cfg) == l2 + [RoutingLine(cfg)];
  }

  lemma SoftChild(line: string)
    requires GoodChild(line)
    ensures IsSoft(line) && !IsHeader(line) && !IsBlank(line) && NoBreak(line)
  {
  }

  lemma BlockParts(cfg: Config)
    requires IsValidChatId(cfg.chatId)
    ensures IsHeader(HEADER) && !IsBlank(HEADER) && NoBreak(HEADER)
    ensures forall l :: l in Block(cfg) && l != HEADER ==> IsSoft(l) && !IsHeader(l) && !IsBlank(l) && NoBreak(l)
    ensures IsSoft(ChatLine(cfg)) && IsSoft(InboundLine(cfg)) && IsSoft(RoutingLine(cfg))
    ensures !IsHeader(ChatLine(cfg)) && !IsHeader(InboundLine(cfg)) && !IsHeader(RoutingLine(cfg))
  {
    hide IsSoft, IsHeader, IsValidChatId, IsBlank, GoodChild, ChatLine, InboundLine, RoutingLine, NoBreak;
    HeaderIsHeader();
    BlockChildren(cfg);
    SoftChild(ChatLine(cfg));
    SoftChild(InboundLine(cfg));
    SoftChild(RoutingLine(cfg));
  }

  /** How many blocks a frontmatter has. */
  function Headers(lines: seq<string>): nat {
    if |lines| == 0 then 0 else Headers(lines[..|lines| - 1]) + if IsHeader(lines[|lines| - 1]) then 1 else 0
  }

  lemma {:induction false} NoHeadersCount(lines: seq<string>)
    requires NoHeaders(lines)
    ensures Headers(lines) == 0
  {
    hide IsHeader;
    if |lines| > 0 {
      NoHeadersCount(lines[..|lines| - 1]);
    }
  }

  lemma HeadersStep(lines: seq<string>, line: string)
    ensures Headers(lines + [line]) == Headers(lines) + if IsHeader(line) then 1 else 0
  {
    hide IsHeader;
    assert (lines + [line])[..|lines|] == lines;
  }

  lemma OneBlock(kept: seq<string>, cfg: Config)
    requires NoHeaders(kept) && IsValidChatId(cfg.chatId)
    ensures Headers(kept + Block(cfg)) == 1
  {
    hide IsSoft, IsHeader, IsValidChatId, Headers, ChatLine, InboundLine, RoutingLine;
    BlockParts(cfg);
    NoHeadersCount(kept);
    var l0 := kept + [HEADER];
    var l1 := l0 + [ChatLine(cfg)];
    var l2 := l1 + [InboundLine(cfg)];
    HeadersStep(kept, HEADER);
    HeadersStep(l0, ChatLine(cfg));
    HeadersStep(l1, InboundLine(cfg));
    HeadersStep(l2, RoutingLine(cfg));
    assert kept + Block(cfg) == l2 + [RoutingLine(cfg)];
  }

  /** The lines that a write puts out, and that they are what splitting its text gives. */
  lemma WrittenLines(raw: string, cfg: Option<Config>)
    ensures var lines := SetLines(SplitLines(raw), cfg);
      SplitLines(Set(raw, cfg)) == if |lines| == 0 then [""] else lines
    ensures var kept := Kept(SplitLines(raw)).0; NoHeaders(kept) && NoHeaders(DropBlankEnd(kept))
  {
    hide Kept, IsHeader, IsValidChatId, Block, DropBlankEnd, SplitLines, IsBlank, NoBreak;
    var all := SplitLines(raw);
    JoinSplit(raw);
    KeptHasNoHeaders(all);
    var kept := Kept(all).0;
    DropBlankEndFacts(kept);
    assert forall l :: l in DropBlankEnd(kept) ==> l in kept;
    var lines := SetLines(all, cfg);
    if Writes(cfg) {
      BlockParts(cfg.value);
    }
    if |lines| == 0 {
      EmptyText();
    } else {
      SplitJoin(lines);
    }
  }

  lemma EmptyText()
    ensures Join([]) == "" && SplitLines("") == [""]
  {
  }

  // ── laws on texts ──

  /** A written block is read back as the configuration, with the chat id trimmed. */
  lemma SetThenParse(raw: string, cfg: Config)
    requires IsValidChatId(cfg.chatId)
    ensures Parse(Set(raw, Some(cfg))) == Some(cfg.(chatId := Trim(cfg.chatId)))
    ensures Headers(SplitLines(Set(raw, Some(cfg)))) == 1
  {
    hide Kept, IsHeader, IsValidChatId, Block, DropBlankEnd, SplitLines, ParseLines, Set, Trim;
    WrittenLines(raw, Some(cfg));
    BlockLength(cfg);
    var kept := DropBlankEnd(Kept(SplitLines(raw)).0);
    ReadsBlock(kept, cfg);
    OneBlock(kept, cfg);
  }

  lemma BlockLength(cfg: Config)
    ensures |Block(cfg)| == 4
  {
  }

  lemma EmptyLineIsNoHeader()
    ensures NoHeaders([""]) && HeaderIndex([""], 0) == -1 && IsBlank("")
  {
  }

  lemma NoHeaderNoConfig(lines: seq<string>)
    requires NoHeaders(lines)
    ensures ParseLines(lines) == None
  {
    hide IsHeader, BlockHeader;
    var h := HeaderIndex(lines, 0);
    if h >= 0 {
      assert lines[h] in lines;
      NoHeaderNoBlock(lines[h]);
    }
  }

  /** Without a configuration, or with an invalid chat id, no block is left. */
  lemma ClearThenParse(raw: string, cfg: Option<Config>)
    requires !Writes(cfg)
    ensures Parse(Set(raw, cfg)) == None
    ensures Headers(SplitLines(Set(raw, cfg))) == 0
  {
    hide Kept, IsHeader, Block, DropBlankEnd, SplitLines, ParseLines, Set, Writes;
    WrittenLines(raw, cfg);
    EmptyLineIsNoHeader();
    NoHeaderNoConfig(SplitLines(Set(raw, cfg)));
    NoHeadersCount(SplitLines(Set(raw, cfg)));
  }

  lemma AlreadyDropped(lines: seq<string>)
    requires |lines| > 0 ==> !IsBlank(lines[|lines| - 1])
    ensures DropBlankEnd(lines) == lines
  {
  }

  /** Writing twice is writing once. */
  lemma SetTwice(raw: string, cfg: Option<Config>)
    ensures Set(Set(raw, cfg), cfg) == Set(raw, cfg)
  {
    hide Kept, IsHeader, Block, DropBlankEnd, SplitLines, IsBlank, IsValidChatId;
    WrittenLines(raw, cfg);
    EmptyLineIsNoHeader();
    var kept := Kept(SplitLines(raw)).0;
    if Writes(cfg) {
      var front := DropBlankEnd(kept);
      BlockLength(cfg.value);
      DropBlankEndFacts(kept);
      AlreadyDropped(front);
      KeepsBeforeBlock(front, cfg.value);
    } else {
      KeepsAll(kept);
      KeepsAll([""]);
      assert Join([""]) == "" && Join([]) == "";
    }
  }

  function NonBlank(lines: seq<string>): seq<string> {
    if |lines| == 0 then []
    else if IsBlank(lines[|lines| - 1]) then NonBlank(lines[..|lines| - 1])
    else NonBlank(lines[..|lines| - 1]) + [lines[|lines| - 1]]
  }

  lemma {:induction false} DroppedWereBlank(lines: seq<string>)
    ensures NonBlank(DropBlankEnd(lines)) == NonBlank(lines)
  {
    hide IsBlank;
    if |lines| > 0 && IsBlank(lines[|lines| - 1]) {
      DroppedWereBlank(lines[..|lines| - 1]);
    }
  }

  lemma {:induction false} NonBlankAppends(a: seq<string>, b: seq<string>)
    ensures NonBlank(a + b) == NonBlank(a) + NonBlank(b)
  {
    hide IsBlank;
    if |b| == 0 {
      assert a + b == a && NonBlank(b) == [];
    } else {
      NonBlankAppends(a, b[..|b| - 1]);
      assert (a + b)[..|a + b| - 1] == a + b[..|b| - 1];
    }
  }

  lemma {:induction false} AllNonBlank(lines: seq<string>)
    requires forall l :: l in lines ==> !IsBlank(l)
    ensures NonBlank(lines) == lines
  {
    hide IsBlank;
    if |lines| > 0 {
      AllNonBlank(lines[..|lines| - 1]);
      assert lines == lines[..|lines| - 1] + [lines[|lines| - 1]];
    }
  }

  /**
   * Every non-blank line outside the old blocks stays, in order, followed by the new block if there
   * is one.
   */
  lemma OtherLinesStay(raw: string, cfg: Option<Config>)
    ensures var lines := SplitLines(raw);
      NonBlank(SplitLines(Set(raw, cfg)))
        == NonBlank(Outside(lines, |lines|)) + if Writes(cfg) then Block(cfg.value) else []
  {
    hide Kept, IsHeader, Block, DropBlankEnd, SplitLines, IsBlank, IsValidChatId, Outside, NonBlank;
    var lines := SplitLines(raw);
    WrittenLines(raw, cfg);
    KeptIsOutside(lines, |lines|);
    assert lines[..|lines|] == lines;
    var kept := Kept(lines).0;
    if Writes(cfg) {
      BlockLength(cfg.value);
      DroppedWereBlank(kept);
      NonBlankAppends(DropBlankEnd(kept), Block(cfg.value));
      BlockParts(cfg.value);
      AllNonBlank(Block(cfg.value));
    } else {
      NothingNonBlank();
    }
  }

  lemma NothingNonBlank()
    ensures NonBlank([""]) == [] && NonBlank([]) == []
  {
    EmptyLineIsNoHeader();
    assert [""][..0] == [];
  }

  // ── the orchestrator's normaliser ──

  /** A sub-value of a telegram block as the frontmatter parser or JSON yields it. */
  datatype Value = Missing | Text(s: string) | Flag(b: bool) | Number(text: string) | Other

  datatype RawBlock = NoBlock | RawBlock(chatId: Value, inbound: Value, routing: Value)

  /** Trim, then strip quotes: what the normaliser does to a chat id given as text. */
  function CleanId(s: string): string {
    StripQuotes(Trim(s))
  }

  function Normalize(v: RawBlock): Option<Config> {
    match v
    case NoBlock => None
    case RawBlock(chatId, inbound, routing) =>
      var id := match chatId case Text(s) => CleanId(s) case Number(t) => t case _ => "";
      if id == "" then None
      else
        Some(Config(id, inbound != Flag(false) && inbound != Text("false"),
                    match routing case Text(s) => RoutingOf(s) case _ => Self))
  }

  /** What the flat parser hands on of a written block: the values as they stand, quotes and all. */
  function AsWritten(cfg: Config): RawBlock {
    RawBlock(Text("\"" + Trim(cfg.chatId) + "\""), Text(if cfg.inbound then "true" else "false"), Text(RoutingText(cfg.routing)))
  }

  /** The normaliser reads the written values as the same configuration. */
  lemma NormalizesWritten(cfg: Config)
    requires IsValidChatId(cfg.chatId)
    ensures Normalize(AsWritten(cfg)) == Some(cfg.(chatId := Trim(cfg.chatId)))
  {
    hide IsValidChatId, Trim, StripQuotes, OneLine, Trimmed;
    ChatIdText(cfg);
    var t := Trim(cfg.chatId);
    QuotedChatId(t);
    TrimKeepsTrimmed("\"" + t + "\"");
    assert "true" != "false" by { assert "true"[0] != "false"[0]; }
    RoutingRoundTrip(cfg.routing);
  }

  /** Cleaning twice changes nothing exactly when cleaning an already cleaned id leaves it alone. */
  lemma CleanIdLength(s: string)
    ensures |CleanId(s)| <= |s|
    ensures |CleanId(s)| == |s| ==> CleanId(s) == s
    ensures CleanId(CleanId(s)) == s <==> CleanId(s) == s
  {
    CleanOnce(s);
    CleanOnce(CleanId(s));
  }

  lemma CleanOnce(s: string)
    ensures |CleanId(s)| <= |s|
    ensures |CleanId(s)| == |s| ==> CleanId(s) == s
  {
    TrimOnce(s);
  }

  lemma TrimOnce(s: string)
    ensures |Trim(s)| <= |s|
    ensures |Trim(s)| == |s| ==> Trim(s) == s
  {
    var t := TrimStart(s);
    assert |t| <= |s|;
    if |Trim(s)| == |s| {
      assert SkipSpace(s, 0) == 0;
      assert t == s;
      assert TextEnd(t, |t|) == |t|;
    }
  }
}
