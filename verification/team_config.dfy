/** The team configuration: teams with their role counts, the lookups over
    the loaded list, and the check of a set of role requirements against a
    team. The list is the service's cache, given here as an input. */
module TeamConfig {
  import opened Wrappers
  import opened Text
  import opened Numbers
  import opened Lookup

  /** How many people of one role a team has. */
  datatype TeamRole = TeamRole(role: string, count: int, seniority: string, employmentType: string)

  datatype Team = Team(
    id: string,
    name: string,
    description: string,
    skills: seq<string>,
    capabilities: seq<string>,
    roles: seq<TeamRole>,
    active: bool)

  datatype Severity = Warning | Error

  /** One problem found with a requirement. */
  datatype Issue = Issue(role: string, requiredCount: int, availableCount: int, severity: Severity, message: string)

  datatype ValidationResult = ValidationResult(isValid: bool, issues: seq<Issue>)

  /** The predicate `t => string.Equals(t.Id, id, OrdinalIgnoreCase)`. */
  function IdIs(id: string): Team -> bool
  {
    (t: Team) => EqualsIgnoreCase(t.id, id)
  }

  /** The first team whose id equals `id` ignoring case; inactive teams are
      found too. */
  function FindById(teams: seq<Team>, id: string): (r: Option<Team>)
    ensures r.None? <==> forall i :: 0 <= i < |teams| ==> !EqualsIgnoreCase(teams[i].id, id)
    ensures r.Some? ==> r.value in teams && EqualsIgnoreCase(r.value.id, id)
  {
    FirstMatch(teams, IdIs(id))
  }

  /** Of several teams with the same id, the first in the list wins. */
  lemma FindByIdFirst(teams: seq<Team>, id: string, i: nat)
    requires i < |teams| && EqualsIgnoreCase(teams[i].id, id)
    requires forall j :: 0 <= j < i ==> !EqualsIgnoreCase(teams[j].id, id)
    ensures FindById(teams, id) == Some(teams[i])
  {
    FirstMatchIsFirst(teams, IdIs(id), i);
  }

  /** Two ids that differ only in letter case find the same team. */
  lemma {:induction false} FindByIdIgnoresCase(teams: seq<Team>, a: string, b: string)
    requires EqualsIgnoreCase(a, b)
    ensures FindById(teams, a) == FindById(teams, b)
  {
    if |teams| > 0 {
      FindByIdIgnoresCase(teams[1..], a, b);
      assert FirstMatch(teams[1..], IdIs(a)) == FirstMatch(teams[1..], IdIs(b));
    }
  }

  /** `GetActiveTeamsAsync`: the active teams, in their configured order. */
  function ActiveTeams(teams: seq<Team>): (r: seq<Team>)
    ensures |r| <= |teams|
    ensures forall t :: t in r <==> t in teams && t.active
  {
    if |teams| == 0 then []
    else
      var rest := ActiveTeams(teams[1..]);
      assert forall t :: t in teams <==> t == teams[0] || t in teams[1..];
      if teams[0].active then [teams[0]] + rest else rest
  }

  /** The filter keeps the teams' relative order: it distributes over
      concatenation. */
  lemma {:induction false} ActiveTeamsConcat(a: seq<Team>, b: seq<Team>)
    ensures ActiveTeams(a + b) == ActiveTeams(a) + ActiveTeams(b)
  {
    if |a| == 0 {
      assert a + b == b;
    } else {
      assert (a + b)[1..] == a[1..] + b;
      ActiveTeamsConcat(a[1..], b);
    }
  }

  /** Filtering twice is filtering once. */
  lemma {:induction false} ActiveTeamsIdempotent(teams: seq<Team>)
    ensures ActiveTeams(ActiveTeams(teams)) == ActiveTeams(teams)
  {
    if |teams| > 0 {
      ActiveTeamsIdempotent(teams[1..]);
      var rest := ActiveTeams(teams[1..]);
      if teams[0].active {
        assert ([teams[0]] + rest)[1..] == rest;
      }
    }
  }

  /** With every team active, the filter returns the list unchanged. */
  lemma {:induction false} ActiveTeamsAllActive(teams: seq<Team>)
    requires forall i :: 0 <= i < |teams| ==> teams[i].active
    ensures ActiveTeams(teams) == teams
  {
    if |teams| > 0 {
      ActiveTeamsAllActive(teams[1..]);
      assert [teams[0]] + teams[1..] == teams;
    }
  }

  /** The predicate `r => string.Equals(r.Role, role, OrdinalIgnoreCase)`. */
  function RoleIs(role: string): TeamRole -> bool
  {
    (r: TeamRole) => EqualsIgnoreCase(r.role, role)
  }

  /** The team's first entry for `role`, ignoring case. */
  function FindRole(team: Team, role: string): (r: Option<TeamRole>)
    ensures r.None? <==> forall i :: 0 <= i < |team.roles| ==> !EqualsIgnoreCase(team.roles[i].role, role)
    ensures r.Some? ==> r.value in team.roles && EqualsIgnoreCase(r.value.role, role)
  {
    FirstMatch(team.roles, RoleIs(role))
  }

  /** Of several entries for the same role, the first listed decides. */
  lemma FindRoleFirst(team: Team, role: string, i: nat)
    requires i < |team.roles| && EqualsIgnoreCase(team.roles[i].role, role)
    requires forall j :: 0 <= j < i ==> !EqualsIgnoreCase(team.roles[j].role, role)
    ensures FindRole(team, role) == Some(team.roles[i])
  {
    FirstMatchIsFirst(team.roles, RoleIs(role), i);
  }

  /** `requiredCount > teamRole.Count * 1.5`, compared in floating point;
      with integer operands it is exact. */
  function FarShort(required: int, count: int): (b: bool)
    ensures b <==> 2 * required > 3 * count
  {
    required as real > count as real * 1.5
  }

  /** A requirement the team meets: it has the role, at least as many as
      required. */
  predicate Satisfied(team: Team, role: string, required: int)
  {
    FindRole(team, role).Some? && required <= FindRole(team, role).value.count
  }

  /** The issue one requirement raises, if any: a role the team lacks is an
      error with nothing available; too few of a role is an error when more
      than one and a half times the count is required, and a warning
      otherwise. */
  function CheckRequirement(team: Team, role: string, required: int): (r: Option<Issue>)
    ensures r.None? <==> Satisfied(team, role, required)
    ensures r.Some? ==> r.value.role == role && r.value.requiredCount == required
    ensures r.Some? && FindRole(team, role).None? ==> r.value.availableCount == 0 && r.value.severity == Error
    ensures r.Some? && FindRole(team, role).Some? ==>
              var count := FindRole(team, role).value.count;
              && r.value.availableCount == count < required
              && (r.value.severity == Error <==> 2 * required > 3 * count)
  {
    match FindRole(team, role)
    case None =>
      Some(Issue(role, required, 0, Error,
                 "Team '" + team.name + "' does not have any " + role + " resources"))
    case Some(teamRole) =>
      if required > teamRole.count then
        Some(Issue(role, required, teamRole.count,
                   if FarShort(required, teamRole.count) then Error else Warning,
                   "Requires " + IntToString(required) + " " + role + "(s) but team '" + team.name
                     + "' only has " + IntToString(teamRole.count)))
      else None
  }

  /** The issues raised by the requirements, one at most per requirement, in
      the order the requirements are enumerated. */
  function CheckRequirements(team: Team, requirements: seq<(string, int)>): (issues: seq<Issue>)
    ensures |issues| <= |requirements|
    ensures |issues| == 0 <==> forall i :: 0 <= i < |requirements| ==> Satisfied(team, requirements[i].0, requirements[i].1)
    ensures forall k :: 0 <= k < |issues| ==> exists i :: 0 <= i < |requirements| && issues[k].role == requirements[i].0
  {
    if |requirements| == 0 then []
    else
      var front := requirements[..|requirements| - 1];
      var (role, required) := requirements[|requirements| - 1];
      var issues := CheckRequirements(team, front);
      assert forall i :: 0 <= i < |front| ==> requirements[i] == front[i];
      match CheckRequirement(team, role, required)
      case None => issues
      case Some(issue) => issues + [issue]
  }

  /** Requirements checked one after another: the issues of a split list are
      the issues of each part, in order. */
  lemma {:induction false} CheckRequirementsConcat(team: Team, a: seq<(string, int)>, b: seq<(string, int)>)
    ensures CheckRequirements(team, a + b) == CheckRequirements(team, a) + CheckRequirements(team, b)
  {
    if |b| == 0 {
      assert a + b == a;
    } else {
      var b' := b[..|b| - 1];
      assert (a + b)[..|a + b| - 1] == a + b';
      assert (a + b)[|a + b| - 1] == b[|b| - 1];
      CheckRequirementsConcat(team, a, b');
    }
  }

  /** The result for a team id that matches no team. */
  const TeamNotFound := ValidationResult(false, [Issue("Team", 0, 0, Error, "Selected team not found")])

  /** `ValidateResourceAllocation`: an unknown team is one error; otherwise
      each requirement is checked in turn, and the result is invalid as soon
      as any issue is raised. */
  method ValidateResourceAllocation(teams: seq<Team>, teamId: string, requirements: seq<(string, int)>)
    returns (result: ValidationResult)
    ensures result.isValid <==> |result.issues| == 0
    ensures FindById(teams, teamId).None? ==> result == TeamNotFound
    ensures FindById(teams, teamId).Some? ==>
              result.issues == CheckRequirements(FindById(teams, teamId).value, requirements)
    ensures FindById(teams, teamId).Some? ==>
              (result.isValid <==>
                 forall i :: 0 <= i < |requirements| ==>
                   Satisfied(FindById(teams, teamId).value, requirements[i].0, requirements[i].1))
  {
    var found := FindById(teams, teamId);
    if found.None? {
      return TeamNotFound;
    }
    var team := found.value;
    var isValid := true;
    var issues: seq<Issue> := [];
    for n := 0 to |requirements|
      invariant issues == CheckRequirements(team, requirements[..n])
      invariant isValid <==> |issues| == 0
    {
      assert requirements[..n + 1][..n] == requirements[..n];
      var (role, required) := requirements[n];
      var issue := CheckRequirement(team, role, required);
      if issue.Some? {
        isValid := false;
        issues := issues + [issue.value];
      }
    }
    assert requirements[..|requirements|] == requirements;
    return ValidationResult(isValid, issues);
  }
}

/** Requirements checked against one small team. */
module TeamConfigExamples {
  import opened Wrappers
  import opened Text
  import opened TeamConfig

  const Developers := TeamRole("Developer", 2, "Senior", "FullTime")
  const Squad := Team("team-a", "Alpha", "", [], [], [Developers], true)

  /** Three developers against two is within half again: a warning. */
  lemma ModestShortfallWarns()
    ensures CheckRequirement(Squad, "developer", 3).Some?
    ensures CheckRequirement(Squad, "developer", 3).value.severity == Warning
    ensures CheckRequirement(Squad, "developer", 3).value.availableCount == 2
  {
    assert EqualsIgnoreCase(Developers.role, "developer") by {
      assert Fold(Developers.role) == Fold("developer");
    }
    assert FindRole(Squad, "developer") == Some(Developers);
  }

  /** Four developers against two is more than half again: an error. */
  lemma LargeShortfallIsError()
    ensures CheckRequirement(Squad, "Developer", 4).Some?
    ensures CheckRequirement(Squad, "Developer", 4).value.severity == Error
  {
    assert FindRole(Squad, "Developer") == Some(Developers);
  }

  /** A role the team does not have at all is an error with none available. */
  lemma MissingRoleIsError()
    ensures CheckRequirement(Squad, "Tester", 1) ==
              Some(Issue("Tester", 1, 0, Error, "Team 'Alpha' does not have any Tester resources"))
  {
    assert !EqualsIgnoreCase(Developers.role, "Tester") by {
      assert Fold(Developers.role)[0] != Fold("Tester")[0];
    }
    assert FindRole(Squad, "Tester") == None;
    MissingRoleMessage();
  }

  /** The message names the team and the role. */
  lemma MissingRoleMessage()
    ensures "Team '" + Squad.name + "' does not have any " + "Tester" + " resources"
         == "Team 'Alpha' does not have any Tester resources"
  {
    var front := "Team '" + "Alpha";
    assert front == "Team 'Alpha";
    var middle := front + "' does not have any ";
    assert middle == "Team 'Alpha' does not have any ";
    assert middle + "Tester" == "Team 'Alpha' does not have any Tester";
  }
}
