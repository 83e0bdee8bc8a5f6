/** Teams and the reconciliation of an agent's memberships. */
module Teams {
  import opened Options
  import opened JsText

  const MAX_NAME: nat := 64

  /** A team as `listTeams` returns it. */
  datatype Team = Team(id: int, name: string, members: set<string>)

  type Members = set<(int, string)>

  function NamesOf(teams: map<int, string>): set<string> {
    set id | id in teams :: teams[id]
  }

  /** The names of the teams an agent belongs to. */
  function TeamsOf(teams: map<int, string>, members: Members, agent: string): set<string> {
    set id | id in teams && (id, agent) in members :: teams[id]
  }

  ghost predicate UniqueNames(teams: map<int, string>) {
    forall i, j :: i in teams && j in teams && teams[i] == teams[j] ==> i == j
  }

  /** `new Set(names.map(trim).filter(Boolean))` */
  function Wanted(names: seq<string>): set<string> {
    set n | n in names && Trim(n) != "" :: Trim(n)
  }

  /** A wanted team cannot be created, or a wanted membership cannot be added. */
  ghost predicate Blocked(teams: map<int, string>, members: Members, agent: string, want: set<string>) {
    exists n :: n in want && Refused(teams, members, agent, n)
  }

  predicate Refused(teams: map<int, string>, members: Members, agent: string, name: string) {
    || (name !in NamesOf(teams) && |name| > MAX_NAME)
    || (name !in TeamsOf(teams, members, agent) && Trim(agent) == "")
  }

  ghost predicate Good(teams: map<int, string>, members: Members, nextId: int) {
    && UniqueNames(teams)
    && (forall id :: id in teams ==> 1 <= id < nextId)
    && (forall m :: m in members ==> m.0 in teams)
    && nextId >= 1
  }

  function SetOf(names: seq<string>): set<string> {
    set n | n in names
  }

  /** `names[k]` is the first mention of the `i`th wanted name: those before it give the wanted names before. */
  ghost predicate FirstMention(names: seq<string>, want: seq<string>, i: nat, k: nat) {
    i < |want| && k < |names| && Trim(names[k]) == want[i] && Wanted(names[..k]) == SetOf(want[..i])
  }

  ghost predicate Mentioned(names: seq<string>, want: seq<string>, i: nat, limit: nat) {
    exists k: nat :: k < limit && FirstMention(names, want, i, k)
  }

  /** A name can be a team's and the agent's: it is one already, or is short enough and the agent has a name. */
  ghost predicate Fits(teams: map<int, string>, members: Members, agent: string, name: string) {
    && (|name| <= 64 || exists id :: id in teams && teams[id] == name)
    && (Trim(agent) != "" || exists id :: id in teams && teams[id] == name && (id, agent) in members)
  }

  lemma RefusedIff(teams: map<int, string>, members: Members, agent: string, name: string)
    ensures Refused(teams, members, agent, name) <==> !Fits(teams, members, agent, name)
  {
    assert name in NamesOf(teams) <==> exists id :: id in teams && teams[id] == name;
    assert name in TeamsOf(teams, members, agent) <==> exists id :: id in teams && teams[id] == name && (id, agent) in members;
  }

  lemma BlockedIff(teams: map<int, string>, members: Members, agent: string, want: set<string>)
    ensures Blocked(teams, members, agent, want) <==> !forall n :: n in want ==> Fits(teams, members, agent, n)
  {
    hide Refused, Fits;
    forall n ensures Refused(teams, members, agent, n) <==> !Fits(teams, members, agent, n) {
      RefusedIff(teams, members, agent, n);
    }
  }

  /** What is left when `name` does not fit: the names in `done` are the agent's, and `name` is a team if short enough. */
  ghost predicate StoppedAt(was: map<int, string>, before: Members, teams: map<int, string>, members: Members, agent: string,
                            done: set<string>, name: string) {
    && !Fits(was, before, agent, name)
    && AddedFor(teams, before, members, agent, done)
    && NamesOf(teams) == NamesOf(was) + done + if |name| <= 64 then {name} else {}
  }

  ghost predicate Distinct(names: seq<string>) {
    forall i, j :: 0 <= i < j < |names| ==> names[i] != names[j]
  }

  /** The wanted names, once each, in the order of their first mention. */
  method WantedOnce(names: seq<string>) returns (want: seq<string>)
    ensures Distinct(want)
    ensures SetOf(want) == Wanted(names)
    ensures forall n :: n in want ==> Trim(n) == n && n != ""
    ensures forall i :: 0 <= i < |want| ==> Mentioned(names, want, i, |names|)
  {
    hide FirstMention;
    want := [];
    assert names[..0] == [];
    for i := 0 to |names|
      invariant forall w :: 0 <= w < |want| ==> Mentioned(names, want, w, i)
      invariant Distinct(want)
      invariant SetOf(want) == Wanted(names[..i])
      invariant forall n :: n in want ==> Trim(n) == n && n != ""
    {
      var name := Trim(names[i]);
      TrimIsTrimmed(names[i]);
      TrimKeepsTrimmed(name);
      WantedGrows(names, i);
      if name != "" && name !in want {
        ghost var shorter := want;
        want := want + [name];
        MentionsStay(names, shorter, want, i, i + 1);
        assert SetOf(want) == SetOf(shorter) + {name};
      } else {
        MentionsLast(names, want, i, i + 1);
      }
    }
    assert names[..|names|] == names;
  }

  lemma MentionsStay(names: seq<string>, want: seq<string>, longer: seq<string>, i: nat, next: nat)
    requires i < |names| && next == i + 1 && longer == want + [Trim(names[i])] && Wanted(names[..i]) == SetOf(want)
    requires forall w :: 0 <= w < |want| ==> Mentioned(names, want, w, i)
    ensures forall w :: 0 <= w < |longer| ==> Mentioned(names, longer, w, next)
  {
    hide Trim, Wanted;
    forall w | 0 <= w < |longer| ensures Mentioned(names, longer, w, next) {
      if w < |want| {
        assert Mentioned(names, want, w, i);
        var k: nat :| k < i && FirstMention(names, want, w, k);
        assert longer[..w] == want[..w];
        assert FirstMention(names, longer, w, k);
      } else {
        assert longer[..w] == want;
        assert FirstMention(names, longer, w, i);
      }
    }
  }

  lemma MentionsLast(names: seq<string>, want: seq<string>, i: nat, next: nat)
    requires next == i + 1 && forall w :: 0 <= w < |want| ==> Mentioned(names, want, w, i)
    ensures forall w :: 0 <= w < |want| ==> Mentioned(names, want, w, next)
  {
    hide FirstMention;
    forall w | 0 <= w < |want| ensures Mentioned(names, want, w, next) {
      assert Mentioned(names, want, w, i);
    }
  }

  lemma WantedGrows(names: seq<string>, i: nat)
    requires i < |names|
    ensures Wanted(names[..i + 1]) == Wanted(names[..i]) + if Trim(names[i]) != "" then {Trim(names[i])} else {}
  {
    hide Trim;
    assert names[..i + 1] == names[..i] + [names[i]];
  }

  /** The memberships once the names in `done` have been added. */
  ghost predicate AddedFor(teams: map<int, string>, before: Members, after: Members, agent: string, done: set<string>) {
    forall id, a :: (id, a) in after <==>
      (id, a) in before || (a == Trim(agent) && id in teams && teams[id] in done && (id, agent) !in before)
  }

  /** The index by name used while adding: old teams with their old members, new teams with none. */
  ghost predicate IndexGood(teams: map<int, string>, before: Members, byName: map<string, Team>) {
    && byName.Keys == NamesOf(teams)
    && forall n :: n in byName ==> IsTeam(teams, before, byName[n]) && byName[n].name == n
  }

  ghost predicate IsTeam(teams: map<int, string>, members: Members, t: Team) {
    t.id in teams && t.name == teams[t.id] && forall a :: a in t.members <==> (t.id, a) in members
  }

  class TeamTable {
    var teams: map<int, string>
    var members: Members
    var nextId: int

    ghost predicate Valid()
      reads this
    {
      Good(teams, members, nextId)
    }

    constructor ()
      ensures Valid() && teams == map[] && members == {}
    {
      teams, members, nextId := map[], {}, 1;
    }

    /** Every team with its members (in id order; the source sorts by name). */
    method ListTeams() returns (list: seq<Team>)
      requires Valid()
      ensures forall t :: t in list ==> IsTeam(teams, members, t)
      ensures forall id :: id in teams ==> exists t :: t in list && t.id == id
    {
      list := [];
      var id := 1;
      while id < nextId
        invariant forall t :: t in list ==> IsTeam(teams, members, t)
        invariant forall k :: k in teams && k < id ==> exists t :: t in list && t.id == k
      {
        if id in teams {
          var t := Team(id, teams[id], set m | m in members && m.0 == id :: m.1);
          MembersOf(members, id);
          var longer := list + [t];
          assert t in longer && forall o :: o in list ==> o in longer;
          list := longer;
        }
        id := id + 1;
      }
    }

    /** None where the source throws: an empty, overlong or taken name. */
    method CreateTeam(name: string) returns (id: Option<int>)
      requires Valid()
      modifies this
      ensures Valid()
      ensures id.None? <==> Trim(name) == "" || |Trim(name)| > 64 || Trim(name) in NamesOf(old(teams))
      ensures id.None? ==> unchanged(this)
      ensures id.Some? ==> id.value == old(nextId) && nextId == old(nextId) + 1
      ensures id.Some? ==> teams == old(teams)[id.value := Trim(name)] && members == old(members)
    {
      var trimmed := Trim(name);
      if trimmed == "" || |trimmed| > MAX_NAME || trimmed in NamesOf(teams) {
        return None;
      }
      id := Some(nextId);
      teams := teams[nextId := trimmed];
      nextId := nextId + 1;
    }

    /** False where the source throws: a blank agent name. */
    method AddTeamMember(id: int, agent: string) returns (ok: bool)
      requires Valid()
      modifies this`members
      ensures Valid()
      ensures ok <==> Trim(agent) != ""
      ensures members == if ok && id in teams then old(members) + {(id, Trim(agent))} else old(members)
    {
      var trimmed := Trim(agent);
      if trimmed == "" {
        return false;
      }
      if id in teams {
        members := members + {(id, trimmed)};
      }
      ok := true;
    }

    method RemoveTeamMember(id: int, agent: string)
      requires Valid()
      modifies this`members
      ensures Valid()
      ensures members == if id in teams then old(members) - {(id, agent)} else old(members)
    {
      if id in teams {
        members := members - {(id, agent)};
      }
    }

    method IndexByName(list: seq<Team>) returns (byName: map<string, Team>)
      requires Valid()
      requires forall t :: t in list ==> IsTeam(teams, members, t)
      requires forall id :: id in teams ==> exists t :: t in list && t.id == id
      ensures IndexGood(teams, members, byName)
    {
      byName := map[];
      for i := 0 to |list|
        invariant forall n :: n in byName ==> IsTeam(teams, members, byName[n]) && byName[n].name == n
        invariant forall t :: t in list[..i] ==> t.name in byName
      {
        assert list[i] in list;
        byName := byName[list[i].name := list[i]];
      }
      forall n | n in NamesOf(teams) ensures n in byName {
        ghost var id := TeamNamed(teams, n);
        var t :| t in list && t.id == id;
        assert t in list[..|list|];
      }
    }

    /** One wanted name: create the team if need be, then add the agent unless it is a member. */
    method AddWanted(agent: string, name: string, byName: map<string, Team>, ghost before: Members, ghost done: set<string>)
        returns (ok: bool, index: map<string, Team>)
      requires Valid() && Trim(name) == name && name != "" && name !in done
      requires IndexGood(teams, before, byName) && AddedFor(teams, before, members, agent, done)
      requires forall m :: m in before ==> m.0 in teams
      modifies this
      ensures Valid()
      ensures ok <==> !Refused(old(teams), before, agent, name)
      ensures IndexGood(teams, before, index)
      ensures AddedFor(teams, before, members, agent, if ok then done + {name} else done)
      ensures name in NamesOf(old(teams)) ==> teams == old(teams) && nextId == old(nextId)
      ensures name !in NamesOf(old(teams)) && |name| <= MAX_NAME ==> teams == old(teams)[old(nextId) := name]
      ensures name !in NamesOf(old(teams)) && |name| > MAX_NAME ==> teams == old(teams) && nextId == old(nextId)
    {
      hide UniqueNames;
      index := byName;
      var team: Team;
      if name in byName {
        team := byName[name];
      } else {
        var id := CreateTeam(name);
        if id.None? {
          return false, index;
        }
        NewTeamKeepsIndex(old(teams), before, byName, id.value, name);
        NewTeamAddsNothing(old(teams), before, members, agent, done, id.value, name);
        team := Team(id.value, name, {});
        index := byName[name := team];
      }
      assert IsTeam(teams, before, team) && team.name == name;
      NameAt(teams, team.id, name);
      OwnTeam(old(teams), teams, before, team, agent);
      if agent !in team.members {
        ok := AddTeamMember(team.id, agent);
        if !ok {
          return;
        }
      }
      ok := true;
      OneMoreAdded(teams, before, old(members), members, agent, done, team);
    }

    /** Add the wanted names one by one; false at the first that is refused. */
    method AddAllWanted(agent: string, want: seq<string>, byName: map<string, Team>) returns (ok: bool)
      requires Valid() && Distinct(want) && forall n :: n in want ==> Trim(n) == n && n != ""
      requires IndexGood(teams, members, byName)
      modifies this
      ensures Valid()
      ensures ok <==> !Blocked(old(teams), old(members), agent, SetOf(want))
      ensures !ok ==> exists i :: (
        0 <= i < |want| && StoppedAt(old(teams), old(members), teams, members, agent, SetOf(want[..i]), want[i]))
      ensures OnlyAdds(old(teams), teams, SetOf(want))
      ensures exists done :: done <= SetOf(want) && AddedFor(teams, old(members), members, agent, done)
      ensures ok ==> NamesOf(teams) == NamesOf(old(teams)) + SetOf(want)
      ensures ok ==> AddedFor(teams, old(members), members, agent, SetOf(want))
      ensures SetOf(want) <= NamesOf(old(teams)) ==> teams == old(teams) && nextId == old(nextId)
    {
      hide Refused, UniqueNames, IndexGood, AddedFor, OnlyAdds, NamesOf, StoppedAt;
      ghost var wanted := SetOf(want);
      ghost var done: set<string> := {};
      var index := byName;
      NothingAdded(teams, members, agent, wanted);
      for i := 0 to |want|
        invariant Valid() && IndexGood(teams, old(members), index)
        invariant done == SetOf(want[..i])
        invariant Added(old(teams), old(members), teams, members, agent, wanted, done)
        invariant forall n :: n in done ==> !Refused(old(teams), old(members), agent, n)
        invariant wanted <= NamesOf(old(teams)) ==> teams == old(teams) && nextId == old(nextId)
      {
        var name := want[i];
        OneMoreName(want, i);
        ghost var was, id := teams, nextId;
        RefusedLater(old(teams), teams, old(members), members, agent, wanted, done, name);
        ok, index := AddWanted(agent, name, index, old(members), done);
        AddedStep(old(teams), old(members), was, teams, members, agent, wanted, done, name, ok, id);
        if !ok {
          StopsThere(old(teams), old(members), was, teams, members, agent, wanted, done, name, id);
          return;
        }
        done := done + {name};
      }
      assert want[..|want|] == want;
      ok := true;
    }

    /** Drop the agent from every listed team whose name is not wanted. */
    method RemoveUnwanted(agent: string, list: seq<Team>, want: seq<string>)
      requires Valid()
      modifies this`members
      ensures Valid()
      ensures AfterDrops(old(members), members, list, want, agent)
    {
      for i := 0 to |list|
        invariant Valid()
        invariant AfterDrops(old(members), members, list[..i], want, agent)
      {
        DropsGrow(list, i, want, agent);
        if list[i].name !in want && agent in list[i].members {
          RemoveTeamMember(list[i].id, agent);
        }
      }
      assert list[..|list|] == list;
    }

    /**
     * Make the agent a member of exactly the wanted teams, creating missing ones. False where the
     * source throws, after the changes made so far.
     */
    method SetAgentTeams(agent: string, names: seq<string>) returns (ok: bool)
      requires Valid()
      modifies this
      ensures Valid()
      ensures ok <==> forall n :: n in Wanted(names) ==> Fits(old(teams), old(members), agent, n)
      ensures !ok ==> exists i :: (
        && 0 <= i < |names| && Trim(names[i]) != ""
        && StoppedAt(old(teams), old(members), teams, members, agent, Wanted(names[..i]), Trim(names[i])))
      ensures OnlyAdds(old(teams), teams, Wanted(names))
      ensures ok ==> NamesOf(teams) == NamesOf(old(teams)) + Wanted(names)
      ensures forall id, a :: a != agent && a != Trim(agent) ==> ((id, a) in members <==> (id, a) in old(members))
      ensures ok ==> (TeamsOf(teams, members, agent) == Wanted(names)
                      <==> Trim(agent) == agent || Wanted(names) <= TeamsOf(old(teams), old(members), agent))
      ensures TeamsOf(old(teams), old(members), agent) == Wanted(names) ==>
        ok && teams == old(teams) && members == old(members) && nextId == old(nextId)
    {
      hide Blocked, Refused, UniqueNames, IndexGood, AddedFor, Trim, Drops, Fits, StoppedAt;
      var want := WantedOnce(names);
      BlockedIff(teams, members, agent, Wanted(names));
      ghost var wanted := Wanted(names);
      var list := ListTeams();
      var byName := IndexByName(list);
      TeamsAreNames(teams, members, agent);
      ok := AddAllWanted(agent, want, byName);
      ghost var mid := members;
      assert wanted <= NamesOf(old(teams)) ==> teams == old(teams) && nextId == old(nextId);
      if !ok {
        PartlyReconciled(old(teams), old(members), teams, members, agent, wanted);
        ghost var i :| 0 <= i < |want|
          && StoppedAt(old(teams), old(members), teams, members, agent, SetOf(want[..i]), want[i]);
        assert Mentioned(names, want, i, |names|);
        ghost var k: nat :| k < |names| && FirstMention(names, want, i, k);
        assert want[i] in want;
        assert StoppedAt(old(teams), old(members), teams, members, agent, Wanted(names[..k]), Trim(names[k]));
        return;
      }
      RemoveUnwanted(agent, list, want);
      DropsMeans(old(teams), old(members), list, want, agent, wanted);
      Reconciled(old(teams), old(members), teams, mid, members, agent, wanted);
    }
  }

  /** The agent was in the listed team, and its name is not wanted. */
  ghost predicate Drops(list: seq<Team>, want: seq<string>, agent: string, id: int) {
    exists t :: t in list && t.id == id && t.name !in want && agent in t.members
  }

  ghost predicate AfterDrops(before: Members, after: Members, list: seq<Team>, want: seq<string>, agent: string) {
    forall id, a :: (id, a) in after <==> (id, a) in before && !(a == agent && Drops(list, want, agent, id))
  }

  lemma DropsGrow(list: seq<Team>, i: nat, want: seq<string>, agent: string)
    requires i < |list|
    ensures forall id :: Drops(list[..i + 1], want, agent, id) <==>
      (Drops(list[..i], want, agent, id) || (id == list[i].id && list[i].name !in want && agent in list[i].members))
  {
    assert list[..i + 1] == list[..i] + [list[i]];
    assert forall t :: t in list[..i + 1] <==> t in list[..i] || t == list[i];
    forall id
      ensures Drops(list[..i + 1], want, agent, id) <==>
        (Drops(list[..i], want, agent, id) || (id == list[i].id && list[i].name !in want && agent in list[i].members))
    {
      if Drops(list[..i], want, agent, id) {
        var t :| t in list[..i] && t.id == id && t.name !in want && agent in t.members;
        assert t in list[..i + 1];
      }
    }
  }

  /** Old teams keep their names; new ones carry wanted names. */
  ghost predicate OnlyAdds(was: map<int, string>, teams: map<int, string>, want: set<string>) {
    && (forall id :: id in was ==> id in teams && teams[id] == was[id])
    && (forall id :: id in teams && id !in was ==> teams[id] in want && teams[id] !in NamesOf(was))
  }

  /** The state after adding the names in `done`. */
  ghost predicate Added(was: map<int, string>, before: Members, teams: map<int, string>, members: Members, agent: string,
                        want: set<string>, done: set<string>) {
    && OnlyAdds(was, teams, want)
    && (forall m :: m in before ==> m.0 in was)
    && NamesOf(teams) == NamesOf(was) + done
    && AddedFor(teams, before, members, agent, done)
  }

  lemma TeamsAreNames(teams: map<int, string>, members: Members, agent: string)
    ensures TeamsOf(teams, members, agent) <= NamesOf(teams)
  {
  }

  lemma NothingAdded(teams: map<int, string>, members: Members, agent: string, want: set<string>)
    requires forall m :: m in members ==> m.0 in teams
    ensures Added(teams, members, teams, members, agent, want, {})
  {
    assert NamesOf(teams) + {} == NamesOf(teams);
  }

  lemma SameTeams(was: map<int, string>, teams: map<int, string>, before: Members, agent: string)
    requires forall m :: m in before ==> m.0 in was
    requires forall id :: id in was ==> id in teams && teams[id] == was[id]
    ensures TeamsOf(was, before, agent) == TeamsOf(teams, before, agent)
  {
    forall n | n in TeamsOf(teams, before, agent) ensures n in TeamsOf(was, before, agent) {
      var id :| id in teams && (id, agent) in before && teams[id] == n;
      assert (id, agent).0 in was;
    }
    forall n | n in TeamsOf(was, before, agent) ensures n in TeamsOf(teams, before, agent) {
      var id :| id in was && (id, agent) in before && was[id] == n;
      assert teams[id] == n;
    }
  }

  /** What refuses a name does not change while other names are added. */
  lemma RefusedLater(was: map<int, string>, teams: map<int, string>, before: Members, members: Members, agent: string,
                     want: set<string>, done: set<string>, name: string)
    requires Added(was, before, teams, members, agent, want, done) && name !in done
    ensures Refused(was, before, agent, name) <==> Refused(teams, before, agent, name)
    ensures forall m :: m in before ==> m.0 in teams
  {
    hide AddedFor, NamesOf;
    SameTeams(was, teams, before, agent);
  }

  lemma AddedStep(was: map<int, string>, before: Members, mid: map<int, string>, teams: map<int, string>, members: Members,
                  agent: string, want: set<string>, done: set<string>, name: string, ok: bool, id: int)
    requires OnlyAdds(was, mid, want) && (forall m :: m in before ==> m.0 in was)
    requires NamesOf(mid) == NamesOf(was) + done && name in want && id !in mid
    requires AddedFor(teams, before, members, agent, if ok then done + {name} else done)
    requires ok ==> !Refused(mid, before, agent, name)
    requires name in NamesOf(mid) ==> teams == mid
    requires name !in NamesOf(mid) && |name| <= MAX_NAME ==> teams == mid[id := name]
    requires name !in NamesOf(mid) && |name| > MAX_NAME ==> teams == mid
    ensures OnlyAdds(was, teams, want)
    ensures ok ==> Added(was, before, teams, members, agent, want, done + {name})
  {
    hide AddedFor;
    if name !in NamesOf(mid) && |name| <= MAX_NAME {
      assert teams[id] == name;
      forall n | n in NamesOf(mid) ensures n in NamesOf(teams) {
        var k := TeamNamed(mid, n);
        assert teams[k] == n;
      }
      assert NamesOf(teams) == NamesOf(mid) + {name};
    }
    assert ok ==> name in NamesOf(mid) || |name| <= MAX_NAME;
    assert ok ==> NamesOf(teams) == NamesOf(was) + (done + {name});
  }

  lemma StopsThere(was: map<int, string>, before: Members, mid: map<int, string>, teams: map<int, string>, members: Members,
                   agent: string, want: set<string>, done: set<string>, name: string, id: int)
    requires OnlyAdds(was, mid, want) && NamesOf(mid) == NamesOf(was) + done && id !in mid
    requires AddedFor(teams, before, members, agent, done) && Refused(was, before, agent, name)
    requires name in NamesOf(mid) ==> teams == mid
    requires name !in NamesOf(mid) && |name| <= MAX_NAME ==> teams == mid[id := name]
    requires name !in NamesOf(mid) && |name| > MAX_NAME ==> teams == mid
    ensures StoppedAt(was, before, teams, members, agent, done, name)
  {
    hide AddedFor, Refused, OnlyAdds;
    RefusedIff(was, before, agent, name);
    if name !in NamesOf(mid) && |name| <= MAX_NAME {
      assert teams[id] == name;
      forall n | n in NamesOf(mid) ensures n in NamesOf(teams) {
        var k := TeamNamed(mid, n);
        assert teams[k] == n;
      }
      assert NamesOf(teams) == NamesOf(mid) + {name};
    }
  }

  lemma OneMoreName(want: seq<string>, i: nat)
    requires i < |want| && Distinct(want)
    ensures SetOf(want[..i + 1]) == SetOf(want[..i]) + {want[i]}
    ensures want[i] !in want[..i]
  {
    assert want[..i + 1] == want[..i] + [want[i]];
  }

  lemma MembersOf(members: Members, id: int)
    ensures forall a :: a in (set m | m in members && m.0 == id :: m.1) <==> (id, a) in members
  {
    forall a | (id, a) in members ensures a in (set m | m in members && m.0 == id :: m.1) {
      assert (id, a).0 == id && (id, a).1 == a;
    }
  }

  lemma NewTeamKeepsIndex(teams: map<int, string>, before: Members, byName: map<string, Team>, id: int, name: string)
    requires IndexGood(teams, before, byName) && id !in teams && name !in byName
    requires forall m :: m in before ==> m.0 in teams
    ensures IndexGood(teams[id := name], before, byName[name := Team(id, name, {})])
  {
    var after := teams[id := name];
    assert NamesOf(after) == NamesOf(teams) + {name} by {
      assert after[id] == name;
      forall n | n in NamesOf(teams) ensures n in NamesOf(after) {
        var k :| k in teams && teams[k] == n;
        assert after[k] == n;
      }
    }
  }

  lemma NewTeamAddsNothing(teams: map<int, string>, before: Members, after: Members, agent: string, done: set<string>,
                           id: int, name: string)
    requires AddedFor(teams, before, after, agent, done) && id !in teams && name !in done
    ensures AddedFor(teams[id := name], before, after, agent, done)
  {
  }

  lemma TeamNamed(teams: map<int, string>, name: string) returns (id: int)
    requires name in NamesOf(teams)
    ensures id in teams && teams[id] == name
  {
    id :| id in teams && teams[id] == name;
  }

  lemma NameAt(teams: map<int, string>, id: int, name: string)
    requires id in teams && teams[id] == name
    ensures name in NamesOf(teams)
  {
  }

  /** Whether the agent is already in the team, by the old memberships. */
  lemma OwnTeam(was: map<int, string>, teams: map<int, string>, before: Members, team: Team, agent: string)
    requires IsTeam(teams, before, team) && UniqueNames(teams)
    requires forall m :: m in before ==> m.0 in was
    requires forall id :: id in was ==> id in teams && teams[id] == was[id]
    ensures agent in team.members <==> team.name in TeamsOf(was, before, agent)
  {
    if agent in team.members {
      assert (team.id, agent) in before && (team.id, agent).0 in was;
    }
    if team.name in TeamsOf(was, before, agent) {
      var id :| id in was && (id, agent) in before && was[id] == team.name;
      assert teams[id] == teams[team.id];
    }
  }

  lemma OneMoreAdded(teams: map<int, string>, before: Members, mid: Members, after: Members, agent: string,
                     done: set<string>, team: Team)
    requires UniqueNames(teams) && IsTeam(teams, before, team) && team.name !in done
    requires AddedFor(teams, before, mid, agent, done)
    requires after == if agent in team.members then mid else mid + {(team.id, Trim(agent))}
    ensures AddedFor(teams, before, after, agent, done + {team.name})
  {
    hide Trim;
  }

  /** `members` is `mid` without the agent's old memberships whose name is not wanted. */
  ghost predicate Dropped(was: map<int, string>, before: Members, mid: Members, members: Members, agent: string,
                          want: set<string>) {
    forall id, a :: (id, a) in members <==> (id, a) in mid && !(a == agent && Unwanted(was, before, agent, want, id))
  }

  predicate Unwanted(was: map<int, string>, before: Members, agent: string, want: set<string>, id: int) {
    id in was && (id, agent) in before && was[id] !in want
  }

  lemma DropsMeans(was: map<int, string>, before: Members, list: seq<Team>, want: seq<string>, agent: string, wanted: set<string>)
    requires forall t :: t in list ==> IsTeam(was, before, t)
    requires forall id :: id in was ==> exists t :: t in list && t.id == id
    requires wanted == SetOf(want)
    ensures forall id :: Drops(list, want, agent, id) <==> Unwanted(was, before, agent, wanted, id)
  {
    forall id | Unwanted(was, before, agent, wanted, id) ensures Drops(list, want, agent, id) {
      var t :| t in list && t.id == id;
      assert t.name !in want;
    }
  }

  lemma PartlyReconciled(was: map<int, string>, before: Members, teams: map<int, string>, members: Members, agent: string,
                         want: set<string>)
    requires exists done :: done <= want && AddedFor(teams, before, members, agent, done)
    requires Blocked(was, before, agent, want)
    ensures forall id, a :: a != agent && a != Trim(agent) ==> ((id, a) in members <==> (id, a) in before)
    ensures TeamsOf(was, before, agent) != want
  {
    hide Trim;
    var done :| done <= want && AddedFor(teams, before, members, agent, done);
    var n :| n in want && Refused(was, before, agent, n);
    TeamsAreNames(was, before, agent);
  }

  lemma Reconciled(was: map<int, string>, before: Members, teams: map<int, string>, mid: Members, members: Members,
                   agent: string, want: set<string>)
    requires OnlyAdds(was, teams, want) && UniqueNames(teams) && NamesOf(teams) == NamesOf(was) + want
    requires forall m :: m in before ==> m.0 in was
    requires forall m :: m in members ==> m.0 in teams
    requires AddedFor(teams, before, mid, agent, want)
    requires Dropped(was, before, mid, members, agent, want)
    ensures forall id, a :: a != agent && a != Trim(agent) ==> ((id, a) in members <==> (id, a) in before)
    ensures TeamsOf(teams, members, agent) == want
      <==> Trim(agent) == agent || want <= TeamsOf(was, before, agent)
    ensures TeamsOf(was, before, agent) == want ==> members == before
  {
    hide Trim, UniqueNames, NamesOf;
    if Trim(agent) == agent {
      TrimmedReconciled(was, before, teams, mid, members, agent, want);
    } else {
      UntrimmedReconciled(was, before, teams, mid, members, agent, want);
    }
    if TeamsOf(was, before, agent) == want {
      SettledReconciled(was, before, teams, mid, members, agent, want);
    }
  }

  lemma TrimmedReconciled(was: map<int, string>, before: Members, teams: map<int, string>, mid: Members, members: Members,
                          agent: string, want: set<string>)
    requires OnlyAdds(was, teams, want) && NamesOf(teams) == NamesOf(was) + want && Trim(agent) == agent
    requires forall m :: m in before ==> m.0 in was
    requires AddedFor(teams, before, mid, agent, want)
    requires Dropped(was, before, mid, members, agent, want)
    ensures TeamsOf(teams, members, agent) == want
  {
    hide Trim;
    forall id | id in teams ensures (id, agent) in members <==> teams[id] in want {
      assert (id, agent) in before ==> (id, agent).0 in was;
    }
    forall n | n in want ensures n in TeamsOf(teams, members, agent) {
      var id := TeamNamed(teams, n);
    }
  }

  lemma UntrimmedReconciled(was: map<int, string>, before: Members, teams: map<int, string>, mid: Members, members: Members,
                            agent: string, want: set<string>)
    requires OnlyAdds(was, teams, want) && Trim(agent) != agent
    requires forall m :: m in before ==> m.0 in was
    requires AddedFor(teams, before, mid, agent, want)
    requires Dropped(was, before, mid, members, agent, want)
    ensures TeamsOf(teams, members, agent) == want <==> want <= TeamsOf(was, before, agent)
  {
    hide Trim;
    forall id ensures (id, agent) in members <==> (id, agent) in before && was[id] in want {
      assert (id, agent) in before ==> (id, agent).0 in was;
    }
    assert TeamsOf(teams, members, agent) == TeamsOf(was, before, agent) * want by {
      forall n | n in TeamsOf(was, before, agent) * want ensures n in TeamsOf(teams, members, agent) {
        var id :| id in was && (id, agent) in before && was[id] == n;
        assert teams[id] == n;
      }
    }
    assert TeamsOf(was, before, agent) * want == want <==> want <= TeamsOf(was, before, agent);
  }

  lemma SettledReconciled(was: map<int, string>, before: Members, teams: map<int, string>, mid: Members, members: Members,
                          agent: string, want: set<string>)
    requires OnlyAdds(was, teams, want) && UniqueNames(teams)
    requires forall m :: m in before ==> m.0 in was
    requires AddedFor(teams, before, mid, agent, want)
    requires Dropped(was, before, mid, members, agent, want)
    requires TeamsOf(was, before, agent) == want
    ensures members == before
  {
    hide Trim;
    forall id | id in teams && teams[id] in want ensures (id, agent) in before {
      var k :| k in was && (k, agent) in before && was[k] == teams[id];
      assert teams[k] == teams[id];
    }
    forall id, a ensures (id, a) in members <==> (id, a) in before {
      assert (id, agent) in before && id in was ==> was[id] in TeamsOf(was, before, agent);
    }
    forall m ensures m in members <==> m in before {
      assert m == (m.0, m.1);
    }
  }
}
