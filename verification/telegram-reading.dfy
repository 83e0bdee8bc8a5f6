/** What the Telegram readers take from a frontmatter, said line by line and character by character. */
module TelegramReading {
  import opened Options
  import opened JsText
  import T = TelegramFrontmatter

  // ── chat ids, headers and the lines of a block ──

  /** Digits, perhaps after a minus, or a channel name after an at sign. */
  ghost predicate ChatId(t: string) {
    || (t != "" && forall i :: 0 <= i < |t| ==> '0' <= t[i] <= '9')
    || (|t| > 1 && t[0] == '-' && forall i :: 1 <= i < |t| ==> '0' <= t[i] <= '9')
    || (|t| > 1 && t[0] == '@' && forall i :: 1 <= i < |t| ==> ChannelChar(t[i]))
  }

  predicate ChannelChar(c: char) {
    'a' <= c <= 'z' || 'A' <= c <= 'Z' || '0' <= c <= '9' || c == '_'
  }

  lemma ValidChatIdIff(s: string)
    ensures T.IsValidChatId(s) <==> ChatId(Trim(s))
  {
    hide Trim;
    var t := Trim(s);
    if |t| > 0 {
      assert forall i :: 1 <= i < |t| ==> t[i] == t[1..][i - 1];
      assert forall i :: 0 <= i < |t| - 1 ==> t[1..][i] == t[i + 1];
    }
  }

  /** A header stands alone or has white space behind it; only one with nothing else opens a block to read. */
  lemma HeaderIff(line: string)
    ensures T.IsHeader(line) <==> |line| >= 9 && line[..9] == "telegram:" && (|line| > 9 ==> IsSpace(line[9]))
    ensures T.BlockHeader(line) <==>
      |line| >= 9 && line[..9] == "telegram:" && forall i :: 9 <= i < |line| ==> IsSpace(line[i])
  {
  }

  /** A line stays in the block when it is empty or starts with white space. */
  lemma SoftIff(line: string)
    ensures T.IsSoft(line) <==> line == "" || IsSpace(line[0])
  {
    var i, j := TrimCuts(line);
    if line != "" {
      assert SkipSpace(line, 0) == 0 <==> !IsSpace(line[0]);
    }
  }

  // ── children ──

  /** White space, a key, a colon, and a value up to the end of the line. */
  ghost predicate ChildParts(line: string, i: nat, j: nat, k: nat, v: nat) {
    && 1 <= i < j <= k < v <= |line|
    && (forall x :: 0 <= x < i ==> IsSpace(line[x]))
    && !('0' <= line[i] <= '9' || line[i] == '-') && (forall x :: i <= x < j ==> ChannelChar(line[x]) || line[x] == '-')
    && (forall x :: j <= x < k ==> IsSpace(line[x])) && line[k] == ':'
    && (forall x :: k < x < v ==> IsSpace(line[x])) && (v < |line| ==> !IsSpace(line[v]))
    && forall x :: v <= x < |line| ==> !IsLineEnd(line[x])
  }

  ghost predicate Child(line: string, key: string, value: string) {
    exists i: nat, j: nat, k: nat, v: nat :: ChildParts(line, i, j, k, v) && key == line[i..j] && value == line[v..]
  }

  lemma {:induction false} SpacesTo(s: string, i: nat, e: nat)
    requires i <= e <= |s| && (forall k :: i <= k < e ==> IsSpace(s[k])) && (e < |s| ==> !IsSpace(s[e]))
    ensures SkipSpace(s, i) == e
    decreases e - i
  {
    if i < e {
      SpacesTo(s, i + 1, e);
    }
  }

  lemma {:induction false} KeyTo(s: string, i: nat, e: nat)
    requires i <= e <= |s| && (forall k :: i <= k < e ==> IsWord(s[k]) || s[k] == '-')
    requires e < |s| ==> !IsWord(s[e]) && s[e] != '-'
    ensures T.KeyEnd(s, i) == e
    decreases e - i
  {
    if i < e {
      KeyTo(s, i + 1, e);
    }
  }

  lemma PartsMatch(line: string, i: nat, j: nat, k: nat, v: nat)
    requires ChildParts(line, i, j, k, v)
    ensures T.MatchChild(line) == Some((line[i..j], line[v..]))
  {
    SpacesTo(line, 0, i);
    KeyTo(line, i, j);
    SpacesTo(line, j, k);
    SpacesTo(line, k + 1, v);
    assert OneLine(line[v..]);
  }

  lemma MatchHasParts(line: string)
    requires T.MatchChild(line).Some?
    ensures Child(line, T.MatchChild(line).value.0, T.MatchChild(line).value.1)
  {
    var i := SkipSpace(line, 0);
    var j := T.KeyEnd(line, i);
    var k := SkipSpace(line, j);
    var v := SkipSpace(line, k + 1);
    forall x | v <= x < |line| ensures !IsLineEnd(line[x]) {
      assert line[x] == line[v..][x - v];
    }
    assert ChildParts(line, i, j, k, v);
  }

  lemma ChildIff(line: string, key: string, value: string)
    ensures T.MatchChild(line) == Some((key, value)) <==> Child(line, key, value)
  {
    hide T.MatchChild;
    if i: nat, j: nat, k: nat, v: nat :| ChildParts(line, i, j, k, v) && key == line[i..j] && value == line[v..] {
      PartsMatch(line, i, j, k, v);
    }
    if T.MatchChild(line) == Some((key, value)) {
      MatchHasParts(line);
    }
  }

  // ── trimmed and unquoted ──

  /** `c` is `s` without the white space around it and then without one pair of equal quotes. */
  ghost predicate Cleaned(s: string, c: string) {
    exists i, j :: 0 <= i <= j <= |s| && IsClean(s, i, j, c)
  }

  ghost predicate IsClean(s: string, i: nat, j: nat, c: string)
    requires i <= j <= |s|
  {
    && (forall k :: 0 <= k < i || j <= k < |s| ==> IsSpace(s[k]))
    && (i < j ==> !IsSpace(s[i]) && !IsSpace(s[j - 1]))
    && if i + 2 <= j && (s[i] == '"' || s[i] == '\'') && s[j - 1] == s[i] then s[i..j] == [s[i]] + c + [s[i]] else c == s[i..j]
  }

  lemma CleanIdIsClean(s: string)
    ensures Cleaned(s, T.CleanId(s))
  {
    var i, j := TrimCuts(s);
    assert IsClean(s, i, j, T.CleanId(s));
  }

  // ── the block ──

  ghost predicate HasChild(line: string, key: string) {
    exists raw :: Child(line, key, raw)
  }

  /** Line k is the last from a to e - 1 that is a child of that key. */
  ghost predicate LastChild(lines: seq<string>, a: nat, k: nat, e: nat, key: string, raw: string)
    requires e <= |lines|
  {
    a <= k < e && Child(lines[k], key, raw) && forall l :: k < l < e ==> !HasChild(lines[l], key)
  }

  /** `v` is the cleaned value of the last child of that key from line a to e - 1, or "" when there is none. */
  ghost predicate KeyIs(lines: seq<string>, a: nat, e: nat, key: string, v: string)
    requires e <= |lines|
  {
    || (v == "" && forall l :: a <= l < e ==> !HasChild(lines[l], key))
    || exists k: nat, raw :: LastChild(lines, a, k, e, key, raw) && Cleaned(raw, v)
  }

  function Next(line: string, child: map<string, string>): map<string, string> {
    if T.IsBlank(line) then child else T.AddChild(child, line)
  }

  lemma KeyStays(lines: seq<string>, a: nat, e: nat, key: string, v: string)
    requires a <= e < |lines| && KeyIs(lines, a, e, key, v) && !HasChild(lines[e], key)
    ensures KeyIs(lines, a, e + 1, key, v)
  {
    hide HasChild, Cleaned, Child;
    if k: nat, raw :| LastChild(lines, a, k, e, key, raw) && Cleaned(raw, v) {
      assert LastChild(lines, a, k, e + 1, key, raw);
    }
  }

  lemma KeyChanges(lines: seq<string>, a: nat, e: nat, key: string, raw: string)
    requires a <= e < |lines| && Child(lines[e], key, raw)
    ensures KeyIs(lines, a, e + 1, key, T.CleanId(raw))
  {
    hide HasChild, Cleaned, Child;
    CleanIdIsClean(raw);
    assert LastChild(lines, a, e, e + 1, key, raw);
  }

  lemma BlankHasNoChild(line: string)
    requires T.IsBlank(line)
    ensures T.MatchChild(line) == None
  {
    var i, j := TrimCuts(line);
  }

  lemma OneLineRead(lines: seq<string>, a: nat, e: nat, child: map<string, string>, key: string)
    requires a <= e < |lines| && KeyIs(lines, a, e, key, T.Get(child, key))
    ensures KeyIs(lines, a, e + 1, key, T.Get(Next(lines[e], child), key))
  {
    hide KeyIs, Child, T.MatchChild, T.IsBlank, Cleaned;
    var line := lines[e];
    if T.IsBlank(line) {
      BlankHasNoChild(line);
    }
    if HasChild(line, key) {
      var raw :| Child(line, key, raw);
      ChildIff(line, key, raw);
      KeyChanges(lines, a, e, key, raw);
      assert T.Get(Next(line, child), key) == T.CleanId(raw);
    } else {
      if T.MatchChild(line).Some? {
        var (k, value) := T.MatchChild(line).value;
        ChildIff(line, k, value);
      }
      KeyStays(lines, a, e, key, T.Get(child, key));
    }
  }

  lemma {:induction false} ChildrenRead(lines: seq<string>, a: nat, i: nat, e: nat, child: map<string, string>, key: string)
    requires a <= i <= e <= |lines| && (forall k :: i <= k < e ==> T.IsSoft(lines[k])) && (e < |lines| ==> !T.IsSoft(lines[e]))
    requires KeyIs(lines, a, i, key, T.Get(child, key))
    ensures KeyIs(lines, a, e, key, T.Get(T.Children(lines, i, child), key))
    decreases e - i
  {
    hide KeyIs, T.MatchChild, T.IsBlank, T.Get;
    if i < e {
      OneLineRead(lines, a, i, child, key);
      assert T.IsSoft(lines[i]);
      ChildrenRead(lines, a, i + 1, e, Next(lines[i], child), key);
    }
  }

  lemma NothingRead(lines: seq<string>, a: nat, key: string)
    requires a <= |lines|
    ensures KeyIs(lines, a, a, key, T.Get(map[], key))
  {
  }

  /** The block under the header at line h ends at line e: the first that does not stay in it. */
  ghost predicate BlockAt(lines: seq<string>, h: nat, e: nat) {
    && h < e <= |lines| && T.BlockHeader(lines[h]) && (forall k :: 0 <= k < h ==> !T.BlockHeader(lines[k]))
    && (forall k :: h < k < e ==> T.IsSoft(lines[k])) && (e < |lines| ==> !T.IsSoft(lines[e]))
  }

  /**
   * For any lines: under the first header each of the three keys has the cleaned value of its last child,
   * the agent listens unless `inbound` is "false", and the routing is 'self' unless it names another mode.
   */
  lemma ParseReads(lines: seq<string>, h: nat, e: nat) returns (chatId: string, inbound: string, routing: string)
    requires BlockAt(lines, h, e)
    ensures
      && KeyIs(lines, h + 1, e, "chatId", chatId) && KeyIs(lines, h + 1, e, "inbound", inbound)
      && KeyIs(lines, h + 1, e, "routing", routing)
      && T.ParseLines(lines) == Some(T.Config(chatId, inbound != "false",
           if routing == "prefix" then T.Prefix else if routing == "passthrough" then T.Passthrough else T.Self))
  {
    hide KeyIs, T.IsSoft, T.BlockHeader, T.Children;
    var i := T.HeaderIndex(lines, 0);
    assert i == h by { assert !(i < h) && !(h < i); }
    var child := T.Children(lines, h + 1, map[]);
    chatId, inbound, routing := T.Get(child, "chatId"), T.Get(child, "inbound"), T.Get(child, "routing");
    ReadAll(lines, h + 1, e, "chatId");
    ReadAll(lines, h + 1, e, "inbound");
    ReadAll(lines, h + 1, e, "routing");
  }

  /** Something is read exactly when a line is the header and nothing but white space. */
  lemma ReadsIffHeader(lines: seq<string>)
    ensures T.ParseLines(lines).Some? <==> exists h :: 0 <= h < |lines| && T.BlockHeader(lines[h])
  {
    hide T.BlockHeader;
  }

  lemma ReadAll(lines: seq<string>, a: nat, e: nat, key: string)
    requires a <= e <= |lines| && (forall k :: a <= k < e ==> T.IsSoft(lines[k])) && (e < |lines| ==> !T.IsSoft(lines[e]))
    ensures KeyIs(lines, a, e, key, T.Get(T.Children(lines, a, map[]), key))
  {
    hide KeyIs, T.IsSoft;
    NothingRead(lines, a, key);
    ChildrenRead(lines, a, a, e, map[], key);
  }
}
