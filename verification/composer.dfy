/** The composer's leading `@agent` and `#topic` tokens. */
module Composer {
  import opened Options
  import opened JsText

  const GENERAL := "general"

  datatype Parsed = Parsed(agents: seq<string>, topics: seq<string>, message: string)

  /** A token at the start of a text: its name, and its length with the white space after it. */
  datatype Token = Token(name: string, length: nat)

  predicate InTopic(c: char) {
    IsWord(c) || c == '-'
  }

  predicate InAgent(c: char) {
    InTopic(c) || c == '/'
  }

  predicate InName(c: char, agent: bool) {
    if agent then InAgent(c) else InTopic(c)
  }

  function NameEnd(s: string, i: nat, agent: bool): (j: nat)
    requires i <= |s|
    ensures i <= j <= |s|
    ensures forall k :: i <= k < j ==> InName(s[k], agent)
    ensures j < |s| ==> !InName(s[j], agent)
    decreases |s| - i
  {
    if i < |s| && InName(s[i], agent) then NameEnd(s, i + 1, agent) else i
  }

  /** A mark, a name, and then white space or the end of the text. */
  function MatchToken(s: string, mark: char, agent: bool): (t: Option<Token>)
    ensures t.Some? ==> 1 < |t.value.name| + 1 <= t.value.length <= |s|
  {
    if |s| == 0 || s[0] != mark then None
    else
      var j := NameEnd(s, 1, agent);
      if j > 1 && (j == |s| || IsSpace(s[j])) then Some(Token(s[1..j], SkipSpace(s, j))) else None
  }

  function AgentToken(known: set<string>, s: string): (t: Option<Token>)
    ensures t.Some? ==> t.value.name in known && 0 < t.value.length <= |s|
  {
    match MatchToken(s, '@', true)
    case Some(t) => if t.name in known then Some(t) else None
    case None => None
  }

  function TopicToken(s: string): (t: Option<Token>)
    ensures t.Some? ==> 1 < |t.value.name| + 1 <= t.value.length <= |s|
  {
    MatchToken(s, '#', false)
  }

  function AddOnce(list: seq<string>, x: string): seq<string> {
    if x in list then list else list + [x]
  }

  // ── parsing ──

  function ParseFrom(known: set<string>, rest: string, agents: seq<string>, topics: seq<string>): Parsed
    decreases |rest|
  {
    var at := AgentToken(known, rest);
    var hash := TopicToken(rest);
    if at.Some? then ParseFrom(known, TrimStart(rest[at.value.length..]), AddOnce(agents, at.value.name), topics)
    else if hash.Some? && |agents| > 0 then
      ParseFrom(known, TrimStart(rest[hash.value.length..]), agents, AddOnce(topics, hash.value.name))
    else Parsed(agents, if |topics| > 0 then topics else [GENERAL], Trim(rest))
  }

  function Parse(known: set<string>, text: string): Parsed {
    ParseFrom(known, TrimStart(text), [], [])
  }

  method ParseComposer(known: set<string>, text: string) returns (p: Parsed)
    ensures p == Parse(known, text)
  {
    hide AgentToken, TopicToken, TrimStart, Trim;
    var rest := TrimStart(text);
    var agents, topics := [], [];
    while true
      invariant Parse(known, text) == ParseFrom(known, rest, agents, topics)
      decreases |rest|
    {
      var at := AgentToken(known, rest);
      if at.Some? {
        agents := AddOnce(agents, at.value.name);
        TrimStartShorter(rest[at.value.length..]);
        rest := TrimStart(rest[at.value.length..]);
        continue;
      }
      var hash := TopicToken(rest);
      if hash.Some? && |agents| > 0 {
        topics := AddOnce(topics, hash.value.name);
        TrimStartShorter(rest[hash.value.length..]);
        rest := TrimStart(rest[hash.value.length..]);
        continue;
      }
      break;
    }
    p := Parsed(agents, if |topics| > 0 then topics else [GENERAL], Trim(rest));
  }

  lemma TrimStartShorter(s: string)
    ensures |TrimStart(s)| <= |s|
  {
  }

  // ── printing the prefix ──

  function JoinSpaced(parts: seq<string>): string {
    if |parts| == 0 then ""
    else if |parts| == 1 then parts[0]
    else parts[0] + " " + JoinSpaced(parts[1..])
  }

  function Marked(mark: string, names: seq<string>): seq<string> {
    seq(|names|, i requires 0 <= i < |names| => mark + names[i])
  }

  function NotGeneral(topics: seq<string>): seq<string> {
    if |topics| == 0 then []
    else if topics[0] == GENERAL then NotGeneral(topics[1..])
    else [topics[0]] + NotGeneral(topics[1..])
  }

  function BuildPrefix(agents: seq<string>, topics: seq<string>): string {
    if |agents| == 0 then ""
    else
      var ats, hashes := JoinSpaced(Marked("@", agents)), JoinSpaced(Marked("#", NotGeneral(topics)));
      if hashes != "" then ats + " " + hashes + " " else ats + " "
  }

  /** Every token followed by one space. */
  function Spaced(mark: string, names: seq<string>): string {
    if |names| == 0 then "" else mark + names[0] + " " + Spaced(mark, names[1..])
  }

  lemma {:induction false} JoinIsSpaced(mark: string, names: seq<string>)
    requires |names| > 0
    ensures JoinSpaced(Marked(mark, names)) + " " == Spaced(mark, names)
  {
    var parts := Marked(mark, names);
    if |names| == 1 {
      assert Spaced(mark, names[1..]) == "";
      assert mark + names[0] + " " + "" == mark + names[0] + " ";
    } else {
      assert parts[1..] == Marked(mark, names[1..]);
      JoinIsSpaced(mark, names[1..]);
      assert parts[0] + " " + JoinSpaced(parts[1..]) + " " == parts[0] + " " + (JoinSpaced(parts[1..]) + " ");
    }
  }

  predicate IsToken(name: string, agent: bool) {
    |name| > 0 && forall i :: 0 <= i < |name| ==> InName(name[i], agent)
  }

  ghost predicate Distinct(names: seq<string>) {
    forall i, j :: 0 <= i < j < |names| ==> names[i] != names[j]
  }

  ghost predicate AgentsGood(known: set<string>, agents: seq<string>) {
    Distinct(agents) && forall a :: a in agents ==> a in known && IsToken(a, true)
  }

  /** Just 'general', or some topics without it. */
  ghost predicate TopicsGood(topics: seq<string>) {
    topics == [GENERAL] ||
    (|topics| > 0 && Distinct(topics) && forall t :: t in topics ==> t != GENERAL && IsToken(t, false))
  }

  /** The message would be read as it is after the prefix. */
  ghost predicate MessageGood(known: set<string>, agents: seq<string>, message: string) {
    Trimmed(message) && AgentToken(known, message).None? && (|agents| > 0 ==> TopicToken(message).None?)
  }

  lemma {:induction false} NoGeneralKept(topics: seq<string>)
    requires forall t :: t in topics ==> t != GENERAL
    ensures NotGeneral(topics) == topics
  {
    if |topics| > 0 {
      assert topics[0] in topics && forall t :: t in topics[1..] ==> t in topics;
      NoGeneralKept(topics[1..]);
      assert topics == [topics[0]] + topics[1..];
    }
  }

  function Hashes(topics: seq<string>): seq<string> {
    if topics == [GENERAL] then [] else topics
  }

  lemma PrefixIsSpaced(agents: seq<string>, topics: seq<string>)
    requires |agents| > 0 && TopicsGood(topics)
    ensures BuildPrefix(agents, topics) == Spaced("@", agents) + Spaced("#", Hashes(topics))
  {
    hide *;
    if topics == [GENERAL] {
      GeneralLeavesNothing(agents, topics);
    } else {
      OtherTopics(topics);
      BothParts(agents, topics);
    }
  }

  /** The topic 'general' is not printed. */
  lemma GeneralLeavesNothing(agents: seq<string>, topics: seq<string>)
    requires |agents| > 0 && topics == [GENERAL]
    ensures BuildPrefix(agents, topics) == Spaced("@", agents) + Spaced("#", Hashes(topics))
  {
    hide JoinSpaced, Spaced;
    JoinIsSpaced("@", agents);
    assert topics[1..] == [] && NotGeneral([]) == [];
    assert Marked("#", []) == [];
    EmptyJoin();
    assert Spaced("@", agents) + "" == Spaced("@", agents);
  }

  lemma OtherTopics(topics: seq<string>)
    requires TopicsGood(topics) && topics != [GENERAL]
    ensures |topics| > 0 && NotGeneral(topics) == topics && Hashes(topics) == topics
  {
    hide Distinct, IsToken;
    NoGeneralKept(topics);
  }

  lemma BothParts(agents: seq<string>, topics: seq<string>)
    requires |agents| > 0 && |topics| > 0 && NotGeneral(topics) == topics && Hashes(topics) == topics
    ensures BuildPrefix(agents, topics) == Spaced("@", agents) + Spaced("#", Hashes(topics))
  {
    hide JoinSpaced, Spaced, Marked, NotGeneral;
    JoinIsSpaced("@", agents);
    JoinIsSpaced("#", topics);
    JoinNotEmpty("#", topics);
    FourParts(JoinSpaced(Marked("@", agents)), " ", JoinSpaced(Marked("#", topics)), " ");
  }

  lemma FourParts(a: string, b: string, c: string, d: string)
    ensures a + b + c + d == (a + b) + (c + d)
  {
  }

  lemma EmptyJoin()
    ensures JoinSpaced([]) == "" && Spaced("#", []) == ""
  {
  }

  lemma JoinNotEmpty(mark: string, names: seq<string>)
    requires |names| > 0 && |mark| > 0
    ensures JoinSpaced(Marked(mark, names)) != ""
  {
  }

  // ── one token at the front ──

  /** Nothing, or something that is not white space. */
  predicate Starts(rest: string) {
    |rest| > 0 ==> !IsSpace(rest[0])
  }

  lemma TokenAt(mark: char, name: string, rest: string, agent: bool)
    requires IsToken(name, agent) && Starts(rest)
    ensures var s := [mark] + name + " " + rest;
      MatchToken(s, mark, agent) == Some(Token(name, |name| + 2)) && s[|name| + 2..] == rest && TrimStart(rest) == rest
  {
    var s := [mark] + name + " " + rest;
    var n := 1 + |name|;
    assert s[0] == mark && s[n] == ' ' && s[1..n] == name && s[n + 1..] == rest;
    assert forall k :: 1 <= k < n ==> s[k] == name[k - 1];
    assert NameEnd(s, 1, agent) == n;
    assert SkipSpace(s, n) == SkipSpace(s, n + 1) == n + 1;
    assert SkipSpace(rest, 0) == 0;
  }

  lemma OtherMark(s: string, mark: char, other: char, agent: bool)
    requires |s| > 0 && s[0] == other && mark != other
    ensures MatchToken(s, mark, agent) == None
  {
  }

  lemma AgentStep(known: set<string>, name: string, rest: string, agents: seq<string>, topics: seq<string>)
    requires IsToken(name, true) && name in known && Starts(rest)
    ensures ParseFrom(known, "@" + name + " " + rest, agents, topics) == ParseFrom(known, rest, AddOnce(agents, name), topics)
  {
    hide MatchToken, TrimStart, Trim, IsToken;
    TokenAt('@', name, rest, true);
    assert ['@'] + name + " " + rest == "@" + name + " " + rest;
  }

  lemma TopicStep(known: set<string>, name: string, rest: string, agents: seq<string>, topics: seq<string>)
    requires IsToken(name, false) && Starts(rest) && |agents| > 0
    ensures ParseFrom(known, "#" + name + " " + rest, agents, topics) == ParseFrom(known, rest, agents, AddOnce(topics, name))
  {
    hide MatchToken, TrimStart, Trim, IsToken;
    TokenAt('#', name, rest, false);
    assert ['#'] + name + " " + rest == "#" + name + " " + rest;
    OtherMark("#" + name + " " + rest, '@', '#', true);
  }

  lemma SpacedStarts(mark: string, names: seq<string>, rest: string)
    requires Starts(rest) && |mark| > 0 && !IsSpace(mark[0])
    ensures Starts(Spaced(mark, names) + rest)
  {
    if |names| > 0 {
      assert (Spaced(mark, names) + rest)[0] == mark[0];
    } else {
      assert Spaced(mark, names) + rest == rest;
    }
  }

  lemma {:induction false} ReadsAgents(known: set<string>, names: seq<string>, rest: string, agents: seq<string>,
                                       topics: seq<string>)
    requires Starts(rest) && Distinct(agents + names) && forall a :: a in names ==> a in known && IsToken(a, true)
    ensures ParseFrom(known, Spaced("@", names) + rest, agents, topics) == ParseFrom(known, rest, agents + names, topics)
    decreases |names|
  {
    hide ParseFrom, IsToken, Starts;
    if |names| == 0 {
      assert Spaced("@", names) + rest == rest && agents + names == agents;
    } else {
      var tail := Spaced("@", names[1..]) + rest;
      SpacedStarts("@", names[1..], rest);
      assert Spaced("@", names) + rest == "@" + names[0] + " " + tail;
      AgentStep(known, names[0], tail, agents, topics);
      FreshName(agents, names);
      assert agents + [names[0]] + names[1..] == agents + names;
      ReadsAgents(known, names[1..], rest, agents + [names[0]], topics);
    }
  }

  lemma FreshName(list: seq<string>, names: seq<string>)
    requires |names| > 0 && Distinct(list + names)
    ensures AddOnce(list, names[0]) == list + [names[0]]
  {
    var all := list + names;
    assert all[|list|] == names[0] && forall i :: 0 <= i < |list| ==> all[i] == list[i];
  }

  lemma {:induction false} ReadsTopics(known: set<string>, names: seq<string>, rest: string, agents: seq<string>,
                                       topics: seq<string>)
    requires Starts(rest) && |agents| > 0 && Distinct(topics + names) && forall t :: t in names ==> IsToken(t, false)
    ensures ParseFrom(known, Spaced("#", names) + rest, agents, topics) == ParseFrom(known, rest, agents, topics + names)
    decreases |names|
  {
    hide ParseFrom, IsToken, Starts;
    if |names| == 0 {
      assert Spaced("#", names) + rest == rest && topics + names == topics;
    } else {
      var tail := Spaced("#", names[1..]) + rest;
      SpacedStarts("#", names[1..], rest);
      assert Spaced("#", names) + rest == "#" + names[0] + " " + tail;
      TopicStep(known, names[0], tail, agents, topics);
      FreshName(topics, names);
      assert topics + [names[0]] + names[1..] == topics + names;
      ReadsTopics(known, names[1..], rest, agents, topics + [names[0]]);
    }
  }

  /** Parsing the printed prefix and a message gives the agents, the topics and the message. */
  lemma PrefixRoundTrip(known: set<string>, agents: seq<string>, topics: seq<string>, message: string)
    requires AgentsGood(known, agents) && TopicsGood(topics) && MessageGood(known, agents, message)
    requires |agents| == 0 ==> topics == [GENERAL]
    ensures Parse(known, BuildPrefix(agents, topics) + message) == Parsed(agents, topics, message)
  {
    hide IsToken, AgentToken, TopicToken, Spaced, BuildPrefix, TrimStart;
    TrimKeepsTrimmed(message);
    var text := BuildPrefix(agents, topics) + message;
    if |agents| == 0 {
      assert BuildPrefix(agents, topics) == "" by { NoPrefix(topics); }
      assert text == message && agents == [];
      AlreadyTrimmed(message);
    } else {
      PrefixIsSpaced(agents, topics);
      var hashes := Hashes(topics);
      var tail := Spaced("#", hashes) + message;
      assert text == Spaced("@", agents) + tail;
      SpacedStarts("#", hashes, message);
      SpacedStarts("@", agents, tail);
      AlreadyTrimmed(text);
      assert [] + agents == agents && [] + hashes == hashes;
      ReadsAgents(known, agents, tail, [], []);
      ReadsTopics(known, hashes, message, agents, []);
    }
  }

  lemma NoPrefix(topics: seq<string>)
    ensures BuildPrefix([], topics) == ""
  {
  }

  lemma AlreadyTrimmed(s: string)
    requires Starts(s)
    ensures TrimStart(s) == s
  {
    assert SkipSpace(s, 0) == 0;
  }

  // ── neutralising topics ──

  function NeutralFrom(known: set<string>, rest: string): string
    decreases |rest|
  {
    var at := AgentToken(known, rest);
    var hash := TopicToken(rest);
    if at.Some? then rest[..at.value.length] + NeutralFrom(known, rest[at.value.length..])
    else if hash.Some? then
      var n := hash.value.length;
      "# " + rest[1..n] + NeutralFrom(known, rest[n..])
    else rest
  }

  function Neutral(known: set<string>, text: string): string {
    var i := SkipSpace(text, 0);
    text[..i] + NeutralFrom(known, text[i..])
  }

  method NeutralizeLeadingTopics(known: set<string>, text: string) returns (out: string)
    ensures out == Neutral(known, text)
  {
    hide AgentToken, TopicToken;
    var i := SkipSpace(text, 0);
    var lead, rest := text[..i], text[i..];
    var parts := "";
    while true
      invariant Neutral(known, text) == lead + (parts + NeutralFrom(known, rest))
      decreases |rest|
    {
      var at := AgentToken(known, rest);
      if at.Some? {
        var n := at.value.length;
        assert parts + (rest[..n] + NeutralFrom(known, rest[n..])) == parts + rest[..n] + NeutralFrom(known, rest[n..]);
        parts := parts + rest[..n];
        rest := rest[n..];
        continue;
      }
      var hash := TopicToken(rest);
      if hash.Some? {
        var n := hash.value.length;
        assert parts + ("# " + rest[1..n] + NeutralFrom(known, rest[n..]))
            == parts + ("# " + rest[1..n]) + NeutralFrom(known, rest[n..]);
        parts := parts + ("# " + rest[1..n]);
        rest := rest[n..];
        continue;
      }
      break;
    }
    out := lead + (parts + rest);
  }

  /** `after` is `before` with some spaces put in. */
  ghost predicate InsertsSpaces(before: string, after: string)
    decreases |after|
  {
    if |after| == 0 then |before| == 0
    else
      (|before| > 0 && before[0] == after[0] && InsertsSpaces(before[1..], after[1..]))
      || (after[0] == ' ' && InsertsSpaces(before, after[1..]))
  }

  lemma {:induction false} PrefixInserts(p: string, before: string, after: string)
    requires InsertsSpaces(before, after)
    ensures InsertsSpaces(p + before, p + after)
    decreases |p|
  {
    if |p| == 0 {
      assert p + before == before && p + after == after;
    } else {
      PrefixInserts(p[1..], before, after);
      assert (p + before)[1..] == p[1..] + before && (p + after)[1..] == p[1..] + after;
    }
  }

  lemma {:induction false} SameInserts(s: string)
    ensures InsertsSpaces(s, s)
  {
    if |s| > 0 {
      SameInserts(s[1..]);
    }
  }

  lemma TopicStartsWithMark(s: string)
    ensures TopicToken(s).Some? ==> s[0] == '#'
  {
  }

  lemma {:induction false} NeutralFromInserts(known: set<string>, rest: string)
    ensures InsertsSpaces(rest, NeutralFrom(known, rest))
    decreases |rest|
  {
    hide AgentToken, TopicToken, InsertsSpaces;
    var at := AgentToken(known, rest);
    var hash := TopicToken(rest);
    if at.Some? {
      var n := at.value.length;
      NeutralFromInserts(known, rest[n..]);
      PrefixInserts(rest[..n], rest[n..], NeutralFrom(known, rest[n..]));
      assert rest[..n] + rest[n..] == rest;
    } else if hash.Some? {
      var n := hash.value.length;
      TopicStartsWithMark(rest);
      NeutralFromInserts(known, rest[n..]);
      var tail := NeutralFrom(known, rest[n..]);
      PrefixInserts(rest[1..n], rest[n..], tail);
      assert rest[1..n] + rest[n..] == rest[1..];
      SpaceAfterMark(rest, rest[1..n] + tail);
      assert "# " + (rest[1..n] + tail) == "# " + rest[1..n] + tail;
    } else {
      SameInserts(rest);
    }
  }

  lemma SpaceAfterMark(rest: string, tail: string)
    requires |rest| > 0 && rest[0] == '#' && InsertsSpaces(rest[1..], tail)
    ensures InsertsSpaces(rest, "# " + tail)
  {
    var out := "# " + tail;
    assert out[1..] == " " + tail && (" " + tail)[1..] == tail;
    assert InsertsSpaces(rest[1..], " " + tail);
  }

  /** Only spaces are put in. */
  lemma NeutralOnlyInsertsSpaces(known: set<string>, text: string)
    ensures InsertsSpaces(text, Neutral(known, text))
  {
    var i := SkipSpace(text, 0);
    NeutralFromInserts(known, text[i..]);
    PrefixInserts(text[..i], text[i..], NeutralFrom(known, text[i..]));
    assert text[..i] + text[i..] == text;
  }

  /** The known agents at the front, up to the first other token. */
  function LeadingAgents(known: set<string>, rest: string, agents: seq<string>): seq<string>
    decreases |rest|
  {
    var at := AgentToken(known, rest);
    if at.Some? then LeadingAgents(known, rest[at.value.length..], AddOnce(agents, at.value.name)) else agents
  }

  lemma TokenKeepsStart(s: string, mark: char, agent: bool)
    requires MatchToken(s, mark, agent).Some?
    ensures Starts(s[MatchToken(s, mark, agent).value.length..])
  {
  }

  lemma HashStops(known: set<string>, s: string)
    requires |s| > 1 && s[0] == '#' && s[1] == ' '
    ensures AgentToken(known, s) == None && TopicToken(s) == None
  {
    assert NameEnd(s, 1, false) == 1;
  }

  /** A name that ends in both texts at the same place. */
  lemma SameName(s: string, t: string, j: nat, agent: bool)
    requires |s| > 0 && j == NameEnd(s, 1, agent) && j <= |t| && (j < |t| ==> j < |s| && t[j] == s[j])
    requires forall k :: 1 <= k < j ==> t[k] == s[k]
    ensures 1 <= j && NameEnd(t, 1, agent) == j
  {
    hide InName;
    assert forall k :: 1 <= k < j ==> InName(t[k], agent);
  }

  /** A token is decided by the text up to the white space after it. */
  lemma SameToken(s: string, t: string, mark: char, agent: bool)
    requires MatchToken(s, mark, agent).Some?
    requires var n := MatchToken(s, mark, agent).value.length; n <= |t| && t[..n] == s[..n] && Starts(t[n..])
    requires var n := MatchToken(s, mark, agent).value.length; |s| == n ==> |t| == n
    ensures MatchToken(t, mark, agent) == MatchToken(s, mark, agent)
  {
    var token := MatchToken(s, mark, agent).value;
    var n, j := token.length, 1 + |token.name|;
    assert forall k :: 0 <= k < n ==> t[k] == t[..n][k] == s[..n][k] == s[k];
    SameName(s, t, j, agent);
    assert SkipSpace(t, j) == n by {
      hide InName, NameEnd;
      assert forall k :: j <= k < n ==> IsSpace(t[k]);
      if n < |t| { assert t[n] == t[n..][0]; }
    }
    assert t[1..j] == t[..n][1..j] == s[..n][1..j] == s[1..j];
  }

  lemma SpaceIsNoName(c: char, agent: bool)
    requires IsSpace(c)
    ensures !InName(c, agent)
  {
  }

  lemma NeutralStarts(known: set<string>, rest: string)
    requires Starts(rest)
    ensures Starts(NeutralFrom(known, rest)) && (|NeutralFrom(known, rest)| == 0 <==> |rest| == 0)
  {
    hide MatchToken;
    var at := AgentToken(known, rest);
    if at.Some? {
      assert NeutralFrom(known, rest)[0] == rest[0];
    }
  }

  lemma AgentIsMatch(known: set<string>, s: string)
    requires AgentToken(known, s).Some?
    ensures MatchToken(s, '@', true) == AgentToken(known, s)
  {
  }

  /** Once neutralised, only the leading agents are read, and the topic is 'general'. */
  lemma {:induction false} NeutralParses(known: set<string>, rest: string, agents: seq<string>)
    requires Starts(rest)
    ensures var p := ParseFrom(known, NeutralFrom(known, rest), agents, []);
      p.agents == LeadingAgents(known, rest, agents) && p.topics == [GENERAL]
    ensures NeutralFrom(known, NeutralFrom(known, rest)) == NeutralFrom(known, rest)
    decreases |rest|
  {
    hide MatchToken, TrimStart, Trim, TopicToken, Starts;
    var at := AgentToken(known, rest);
    var out := NeutralFrom(known, rest);
    if at.Some? {
      var n := at.value.length;
      AgentIsMatch(known, rest);
      TokenKeepsStart(rest, '@', true);
      NeutralStarts(known, rest[n..]);
      NeutralParses(known, rest[n..], AddOnce(agents, at.value.name));
      assert out[..n] == rest[..n] && out[n..] == NeutralFrom(known, rest[n..]);
      SameToken(rest, out, '@', true);
      AlreadyTrimmed(out[n..]);
    } else if TopicToken(rest).Some? {
      TopicStartsWithMark(rest);
      assert out[0] == '#' && out[1] == ' ';
      HashStops(known, out);
    }
  }

  lemma {:induction false} SkipLead(text: string, out: string, i: nat)
    requires i <= |text| && i <= |out| && text[..i] == out[..i] && (forall k :: 0 <= k < i ==> IsSpace(text[k]))
    requires Starts(out[i..])
    ensures SkipSpace(out, 0) == i && TrimStart(out) == out[i..]
  {
    assert forall k :: 0 <= k < i ==> out[k] == out[..i][k] == text[..i][k] == text[k];
    if i < |out| {
      assert out[i] == out[i..][0];
    }
  }

  /**
   * Neutralising is idempotent, and the result is parsed with topic 'general' and exactly the agents
   * that stand before the first leading topic.
   */
  lemma NeutralIsGeneral(known: set<string>, text: string)
    ensures Neutral(known, Neutral(known, text)) == Neutral(known, text)
    ensures var p := Parse(known, Neutral(known, text));
      p.topics == [GENERAL] && p.agents == LeadingAgents(known, TrimStart(text), [])
  {
    hide AgentToken, TopicToken, LeadingAgents, ParseFrom, NeutralFrom;
    var i := SkipSpace(text, 0);
    var rest := text[i..];
    assert Starts(rest);
    NeutralParses(known, rest, []);
    NeutralStarts(known, rest);
    var out := Neutral(known, text);
    assert out[..i] == text[..i] && out[i..] == NeutralFrom(known, rest);
    SkipLead(text, out, i);
  }

  // ── what the parse reads, said without the scan ──

  datatype Mark = At(name: string) | Hash(name: string)

  /** What a name may hold; only an agent's may hold a slash. */
  predicate NameChar(c: char, agent: bool) {
    'a' <= c <= 'z' || 'A' <= c <= 'Z' || '0' <= c <= '9' || c == '_' || c == '-' || (agent && c == '/')
  }

  /** `s` is a mark, a name, white space and `after`; the white space may only be missing at the end. */
  ghost predicate Reads(s: string, mark: char, agent: bool, name: string, after: string) {
    && name != "" && (forall c :: c in name ==> NameChar(c, agent))
    && |s| >= 1 + |name| + |after| && s[0] == mark && s[1..1 + |name|] == name && s[|s| - |after|..] == after
    && (forall k :: 1 + |name| <= k < |s| - |after| ==> IsSpace(s[k]))
    && (after != "" ==> !IsSpace(after[0]) && |s| > 1 + |name| + |after|)
  }

  ghost predicate ReadsMark(known: set<string>, some: bool, s: string, m: Mark, after: string) {
    match m
    case At(name) => name in known && Reads(s, '@', true, name, after)
    case Hash(name) => some && Reads(s, '#', false, name, after)
  }

  /** `marks` are all the leading tokens of `s`: known agents, and topics once there is an agent. */
  ghost predicate Leads(known: set<string>, some: bool, s: string, marks: seq<Mark>, tail: string)
    decreases |marks|
  {
    if marks == [] then s == tail && forall m, after :: !ReadsMark(known, some, s, m, after)
    else exists after ::
      ReadsMark(known, some, s, marks[0], after) && Leads(known, some || marks[0].At?, after, marks[1..], tail)
  }

  function AgentNames(marks: seq<Mark>): seq<string> {
    if marks == [] then []
    else (if marks[0].At? then [marks[0].name] else []) + AgentNames(marks[1..])
  }

  function TopicNames(marks: seq<Mark>): seq<string> {
    if marks == [] then []
    else (if marks[0].Hash? then [marks[0].name] else []) + TopicNames(marks[1..])
  }

  /** `list` holds each name once, in the order of first mention. */
  ghost predicate FirstMentions(list: seq<string>, names: seq<string>) {
    && (forall n :: n in list <==> n in names)
    && Distinct(list)
    && forall i :: 0 <= i < |list| ==> MentionedAfter(list, i, names)
  }

  /** Some mention of the name has exactly the earlier names of the list before it. */
  ghost predicate MentionedAfter(list: seq<string>, i: nat, names: seq<string>)
    requires i < |list|
  {
    exists k :: 0 <= k < |names| && names[k] == list[i] && forall n :: n in names[..k] <==> n in list[..i]
  }

  function AddAll(list: seq<string>, names: seq<string>): seq<string>
    decreases |names|
  {
    if names == [] then list else AddAll(AddOnce(list, names[0]), names[1..])
  }

  lemma OneMention(list: seq<string>, names: seq<string>, n: string)
    requires FirstMentions(list, names)
    ensures FirstMentions(AddOnce(list, n), names + [n])
  {
    var longer, more := AddOnce(list, n), names + [n];
    forall i | 0 <= i < |longer| ensures MentionedAfter(longer, i, more) {
      if i < |list| {
        assert MentionedAfter(list, i, names);
        var k :| 0 <= k < |names| && names[k] == list[i] && forall n :: n in names[..k] <==> n in list[..i];
        assert more[k] == longer[i] && more[..k] == names[..k] && longer[..i] == list[..i];
      } else {
        assert more[|names|] == longer[i] && more[..|names|] == names && longer[..i] == list;
      }
    }
  }

  lemma {:induction false} AddsFirstMentions(list: seq<string>, names: seq<string>, more: seq<string>)
    requires FirstMentions(list, names)
    ensures FirstMentions(AddAll(list, more), names + more)
    decreases |more|
  {
    hide FirstMentions, AddOnce;
    if more == [] {
      assert names + more == names;
    } else {
      OneMention(list, names, more[0]);
      AddsFirstMentions(AddOnce(list, more[0]), names + [more[0]], more[1..]);
      assert names + [more[0]] + more[1..] == names + more;
    }
  }

  lemma MatchReads(s: string, mark: char, agent: bool)
    requires MatchToken(s, mark, agent).Some?
    ensures var t := MatchToken(s, mark, agent).value; Reads(s, mark, agent, t.name, s[t.length..])
  {
    var t := MatchToken(s, mark, agent).value;
    var j := NameEnd(s, 1, agent);
    assert t.name == s[1..j];
    assert forall k :: 0 <= k < |t.name| ==> t.name[k] == s[k + 1];
  }

  lemma ReadsMatches(s: string, mark: char, agent: bool, name: string, after: string)
    requires Reads(s, mark, agent, name, after)
    ensures MatchToken(s, mark, agent) == Some(Token(name, |s| - |after|)) && s[|s| - |after|..] == after
  {
    var n, e := 1 + |name|, |s| - |after|;
    forall k | 1 <= k < n ensures InName(s[k], agent) {
      assert s[k] == s[1..n][k - 1] && name[k - 1] in name;
    }
    assert after != "" ==> s[e] == after[0];
    if n < |s| {
      SpaceIsNoName(s[n], agent);
    }
    NameRuns(s, 1, n, agent);
    SpaceRuns(s, n, e);
  }

  lemma {:induction false} NameRuns(s: string, i: nat, n: nat, agent: bool)
    requires i <= n <= |s| && (forall k :: i <= k < n ==> InName(s[k], agent)) && (n < |s| ==> !InName(s[n], agent))
    ensures NameEnd(s, i, agent) == n
    decreases n - i
  {
    if i < n {
      NameRuns(s, i + 1, n, agent);
    }
  }

  lemma {:induction false} SpaceRuns(s: string, i: nat, e: nat)
    requires i <= e <= |s| && (forall k :: i <= k < e ==> IsSpace(s[k])) && (e < |s| ==> !IsSpace(s[e]))
    ensures SkipSpace(s, i) == e
    decreases e - i
  {
    if i < e {
      SpaceRuns(s, i + 1, e);
    }
  }

  /** Nothing is left to read when neither token matches. */
  lemma NoMark(known: set<string>, some: bool, s: string)
    requires AgentToken(known, s).None? && (some ==> TopicToken(s).None?)
    ensures Leads(known, some, s, [], s)
  {
    hide Reads, MatchToken;
    forall m, after ensures !ReadsMark(known, some, s, m, after) {
      match m {
        case At(name) => if Reads(s, '@', true, name, after) { ReadsMatches(s, '@', true, name, after); }
        case Hash(name) => if Reads(s, '#', false, name, after) { ReadsMatches(s, '#', false, name, after); }
      }
    }
  }

  lemma MarkLeads(known: set<string>, some: bool, s: string, m: Mark, after: string, marks: seq<Mark>, tail: string)
    requires ReadsMark(known, some, s, m, after) && Leads(known, some || m.At?, after, marks, tail)
    ensures Leads(known, some, s, [m] + marks, tail)
    ensures AgentNames([m] + marks) == (if m.At? then [m.name] else []) + AgentNames(marks)
    ensures TopicNames([m] + marks) == (if m.Hash? then [m.name] else []) + TopicNames(marks)
  {
    hide ReadsMark;
    var all := [m] + marks;
    assert all[0] == m && all[1..] == marks;
    assert AgentNames(all) == (if m.At? then [m.name] else []) + AgentNames(all[1..]);
    assert TopicNames(all) == (if m.Hash? then [m.name] else []) + TopicNames(all[1..]);
  }

  lemma AddsNext(list: seq<string>, n: string, names: seq<string>)
    ensures AddAll(list, [n] + names) == AddAll(AddOnce(list, n), names)
    ensures AddAll(list, [] + names) == AddAll(list, names)
  {
    assert ([n] + names)[1..] == names && [] + names == names;
  }

  lemma {:induction false} ParseFromReads(known: set<string>, rest: string, agents: seq<string>, topics: seq<string>)
      returns (marks: seq<Mark>, tail: string)
    requires Starts(rest)
    ensures Leads(known, |agents| > 0, rest, marks, tail)
    ensures var ts := AddAll(topics, TopicNames(marks));
      ParseFrom(known, rest, agents, topics)
        == Parsed(AddAll(agents, AgentNames(marks)), if |ts| > 0 then ts else ["general"], Trim(tail))
    decreases |rest|
  {
    hide Reads, MatchToken, TrimStart, Trim, Leads, AddAll;
    var at := AgentToken(known, rest);
    var hash := TopicToken(rest);
    if at.Some? || (hash.Some? && |agents| > 0) {
      var t := if at.Some? then at.value else hash.value;
      var m := if at.Some? then At(t.name) else Hash(t.name);
      var after := rest[t.length..];
      MatchReads(rest, if at.Some? then '@' else '#', at.Some?);
      TokenKeepsStart(rest, if at.Some? then '@' else '#', at.Some?);
      AlreadyTrimmed(after);
      var more;
      if at.Some? {
        AgentIsMatch(known, rest);
        more, tail := ParseFromReads(known, after, AddOnce(agents, t.name), topics);
      } else {
        more, tail := ParseFromReads(known, after, agents, AddOnce(topics, t.name));
      }
      marks := [m] + more;
      MarkLeads(known, |agents| > 0, rest, m, after, more, tail);
      AddsNext(agents, t.name, AgentNames(more));
      AddsNext(topics, t.name, TopicNames(more));
    } else {
      marks, tail := [], rest;
      NoMark(known, |agents| > 0, rest);
      NothingAdded(agents, topics);
    }
  }

  lemma NothingAdded(agents: seq<string>, topics: seq<string>)
    ensures AddAll(agents, []) == agents && AddAll(topics, []) == topics
  {
  }

  /**
   * For every text: the leading tokens are read off until none is left, each agent and topic is kept once in
   * the order of first mention, the topic is 'general' when there is none, and the rest is the message.
   */
  lemma ParseReads(known: set<string>, text: string) returns (marks: seq<Mark>, tail: string)
    ensures Leads(known, false, TrimStart(text), marks, tail)
    ensures var p := Parse(known, text);
      && FirstMentions(p.agents, AgentNames(marks))
      && (if TopicNames(marks) == [] then p.topics == ["general"] else FirstMentions(p.topics, TopicNames(marks)))
      && p.message == Trim(tail)
  {
    hide Leads, FirstMentions, Trim;
    marks, tail := ParseFromReads(known, TrimStart(text), [], []);
    NothingMentioned();
    AddsFirstMentions([], [], AgentNames(marks));
    AddsFirstMentions([], [], TopicNames(marks));
    assert [] + AgentNames(marks) == AgentNames(marks) && [] + TopicNames(marks) == TopicNames(marks);
    NothingAdded([], []);
    if TopicNames(marks) != [] {
      SomeMentioned(AddAll([], TopicNames(marks)), TopicNames(marks));
    }
  }

  lemma NothingMentioned()
    ensures FirstMentions([], [])
  {
  }

  lemma SomeMentioned(list: seq<string>, names: seq<string>)
    requires FirstMentions(list, names) && names != []
    ensures list != []
  {
    assert names[0] in names;
  }

  /** Each leading topic token gets one space after its mark; agent tokens and the rest stay as they are. */
  ghost predicate Neutralized(known: set<string>, s: string, marks: seq<Mark>, out: string)
    decreases |marks|
  {
    if marks == [] then out == s && forall m, after :: !ReadsMark(known, true, s, m, after)
    else exists after, rest ::
      && ReadsMark(known, true, s, marks[0], after) && |after| <= |s|
      && out == (if marks[0].At? then s[..|s| - |after|] else "# " + s[1..|s| - |after|]) + rest
      && Neutralized(known, after, marks[1..], rest)
  }

  lemma {:induction false} NeutralFromEffect(known: set<string>, s: string) returns (marks: seq<Mark>)
    ensures Neutralized(known, s, marks, NeutralFrom(known, s))
    decreases |s|
  {
    hide Reads, MatchToken, Neutralized;
    var at := AgentToken(known, s);
    var hash := TopicToken(s);
    if at.Some? || hash.Some? {
      var t := if at.Some? then at.value else hash.value;
      var m := if at.Some? then At(t.name) else Hash(t.name);
      MatchReads(s, if at.Some? then '@' else '#', at.Some?);
      if at.Some? {
        AgentIsMatch(known, s);
      }
      var after := s[t.length..];
      var more := NeutralFromEffect(known, after);
      marks := [m] + more;
      OneNeutralized(known, s, m, after, more, NeutralFrom(known, after));
    } else {
      marks := [];
      NoMark(known, true, s);
      NoneNeutralized(known, s);
    }
  }

  lemma OneNeutralized(known: set<string>, s: string, m: Mark, after: string, marks: seq<Mark>, rest: string)
    requires ReadsMark(known, true, s, m, after) && |after| <= |s| && Neutralized(known, after, marks, rest)
    ensures Neutralized(known, s, [m] + marks,
      (if m.At? then s[..|s| - |after|] else "# " + s[1..|s| - |after|]) + rest)
  {
    hide ReadsMark;
    assert ([m] + marks)[0] == m && ([m] + marks)[1..] == marks;
  }

  lemma NoneNeutralized(known: set<string>, s: string)
    requires Leads(known, true, s, [], s)
    ensures Neutralized(known, s, [], s)
  {
    hide ReadsMark;
  }

  /** For every text: the white space at the front stays, and the leading tokens are neutralised one by one. */
  lemma NeutralEffect(known: set<string>, text: string) returns (lead: string, body: string, marks: seq<Mark>, out: string)
    ensures text == lead + body && (forall k :: 0 <= k < |lead| ==> IsSpace(lead[k])) && Starts(body)
    ensures Neutral(known, text) == lead + out && Neutralized(known, body, marks, out)
  {
    hide NeutralFrom, Neutralized;
    var i := SkipSpace(text, 0);
    lead, body := text[..i], text[i..];
    marks := NeutralFromEffect(known, body);
    out := NeutralFrom(known, body);
  }
}
