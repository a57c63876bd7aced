/**
 * ShortlistContainer: the skill ids sent to the member-matching query, and
 * the matched members left once those already on the project's team are
 * removed. An `_id` is a string, `null` or `undefined` (`JsId`): optional
 * chaining through a missing object gives `undefined`, never `null`, and
 * `===` tells the two apart, so `undefined === undefined` holds but
 * `undefined === null` does not.
 */
module Shortlist {
  import opened Wrappers

  /** A JavaScript id value: a string, `null`, or `undefined` (also a missing key). */
  datatype JsId = Undefined | Null | Str(s: string)

  datatype MemberInfo = MemberInfo(id: JsId)
  datatype TeamMember = TeamMember(memberInfo: Option<MemberInfo>)
  datatype Project = Project(team: Option<seq<Option<TeamMember>>>)

  /** One entry of `matchSkillsToMembers`; the filter reads only its `_id`. */
  datatype MatchedMember = MatchedMember(id: JsId)

  datatype SkillData = SkillData(id: JsId)
  datatype Skill = Skill(skillData: Option<SkillData>)
  datatype SelectedRole = SelectedRole(skills: Option<seq<Option<Skill>>>)

  /** `teamMember?.memberInfo?._id`: a null or undefined entry or `memberInfo` gives `undefined`. */
  function TeamMemberId(t: Option<TeamMember>): JsId {
    match t
    case None => Undefined
    case Some(tm) =>
      match tm.memberInfo
      case None => Undefined
      case Some(info) => info.id
  }

  /** `project?.team?.some(teamMember => teamMember?.memberInfo?._id === id)`. */
  predicate OnTeam(project: Option<Project>, id: JsId) {
    project.Some? && project.value.team.Some? &&
    exists k :: 0 <= k < |project.value.team.value| && TeamMemberId(project.value.team.value[k]) == id
  }

  /** There is no team to filter against: no project, no team list, or an empty one. */
  predicate HasNoTeam(project: Option<Project>) {
    project.None? || project.value.team.None? || project.value.team.value == []
  }

  /** `matches.filter(member => !OnTeam(member._id))`. */
  function KeepNonTeam(matches: seq<MatchedMember>, project: Option<Project>): (r: seq<MatchedMember>)
    ensures forall m :: m in r <==> m in matches && !OnTeam(project, m.id)
    ensures forall m :: multiset(r)[m] == if OnTeam(project, m.id) then 0 else multiset(matches)[m]
    decreases |matches|
  {
    if matches == [] then []
    else
      var rest := KeepNonTeam(matches[1..], project);
      assert forall m :: m in matches <==> m == matches[0] || m in matches[1..];
      assert matches == [matches[0]] + matches[1..];
      assert multiset(matches) == multiset([matches[0]]) + multiset(matches[1..]);
      if OnTeam(project, matches[0].id) then rest else [matches[0]] + rest
  }

  /** `filteredMembers`: the filter, or `[]` when there is no match data. */
  function FilteredMembers(matches: Option<seq<MatchedMember>>, project: Option<Project>): (r: seq<MatchedMember>)
    ensures matches.None? ==> r == []
    ensures matches.Some? ==> forall m :: m in r <==> m in matches.value && !OnTeam(project, m.id)
    ensures matches.Some? ==> forall m :: multiset(r)[m] == if OnTeam(project, m.id) then 0 else multiset(matches.value)[m]
  {
    match matches
    case None => []
    case Some(ms) => KeepNonTeam(ms, project)
  }

  /** `a` is `b` with some elements left out and the rest in their order. */
  predicate IsSubsequence(a: seq<MatchedMember>, b: seq<MatchedMember>)
    decreases |b|
  {
    if b == [] then a == []
    else (a != [] && a[0] == b[0] && IsSubsequence(a[1..], b[1..])) || IsSubsequence(a, b[1..])
  }

  /** The filter keeps the matches in their relative order. */
  lemma {:induction false} KeepNonTeamIsSubsequence(matches: seq<MatchedMember>, project: Option<Project>)
    ensures IsSubsequence(KeepNonTeam(matches, project), matches)
  {
    if matches != [] {
      KeepNonTeamIsSubsequence(matches[1..], project);
      var r := KeepNonTeam(matches, project);
      if !OnTeam(project, matches[0].id) {
        assert r[1..] == KeepNonTeam(matches[1..], project);
      }
    }
  }

  /** A subsequence is never longer: the shortlist counts at most as many members as were matched. */
  lemma {:induction false} SubsequenceNoLonger(a: seq<MatchedMember>, b: seq<MatchedMember>)
    requires IsSubsequence(a, b)
    ensures |a| <= |b|
    decreases |b|
  {
    if b != [] {
      if a != [] && a[0] == b[0] && IsSubsequence(a[1..], b[1..]) {
        SubsequenceNoLonger(a[1..], b[1..]);
      } else {
        SubsequenceNoLonger(a, b[1..]);
      }
    }
  }

  /** `filteredMembers` is an order-preserving selection of the matches, never longer than them. */
  lemma FilteredMembersIsSubsequence(matches: seq<MatchedMember>, project: Option<Project>)
    ensures IsSubsequence(FilteredMembers(Some(matches), project), matches)
    ensures |FilteredMembers(Some(matches), project)| <= |matches|
  {
    KeepNonTeamIsSubsequence(matches, project);
    SubsequenceNoLonger(KeepNonTeam(matches, project), matches);
  }

  /** With no project, no team or an empty team, every match is kept, in order. */
  lemma {:induction false} NoTeamKeepsAll(matches: seq<MatchedMember>, project: Option<Project>)
    requires HasNoTeam(project)
    ensures KeepNonTeam(matches, project) == matches
  {
    if matches != [] {
      NoTeamKeepsAll(matches[1..], project);
    }
  }

  /** Filtering twice is filtering once. */
  lemma {:induction false} KeepNonTeamIdempotent(matches: seq<MatchedMember>, project: Option<Project>)
    ensures KeepNonTeam(KeepNonTeam(matches, project), project) == KeepNonTeam(matches, project)
  {
    if matches != [] {
      KeepNonTeamIdempotent(matches[1..], project);
      var rest := KeepNonTeam(matches[1..], project);
      if !OnTeam(project, matches[0].id) {
        assert ([matches[0]] + rest)[1..] == rest;
      }
    }
  }

  /** A member whose `_id` is undefined is dropped as soon as one team entry lacks `memberInfo`, since undefined equals undefined. */
  lemma UndefinedIdsMatch(matches: seq<MatchedMember>)
    ensures var project := Some(Project(Some([Some(TeamMember(None))])));
      MatchedMember(Undefined) !in FilteredMembers(Some(matches), project)
  {
    var project := Some(Project(Some([Some(TeamMember(None))])));
    assert TeamMemberId(project.value.team.value[0]) == Undefined;
  }

  /** A member whose `_id` is null is not matched by a team entry that lacks `memberInfo`, since undefined is not null: every copy of it is kept. */
  lemma NullIdNotMatchedByMissingInfo(matches: seq<MatchedMember>)
    ensures var project := Some(Project(Some([Some(TeamMember(None)), None])));
      multiset(FilteredMembers(Some(matches), project))[MatchedMember(Null)] == multiset(matches)[MatchedMember(Null)]
  {
    var project := Some(Project(Some([Some(TeamMember(None)), None])));
    var team := project.value.team.value;
    assert TeamMemberId(team[0]) == Undefined && TeamMemberId(team[1]) == Undefined;
    assert !OnTeam(project, Null);
  }

  /** A null `_id` does match a team member whose `memberInfo._id` is null. */
  lemma NullIdsMatch(matches: seq<MatchedMember>)
    ensures var project := Some(Project(Some([Some(TeamMember(Some(MemberInfo(Null))))])));
      MatchedMember(Null) !in FilteredMembers(Some(matches), project)
  {
    var project := Some(Project(Some([Some(TeamMember(Some(MemberInfo(Null))))])));
    assert TeamMemberId(project.value.team.value[0]) == Null;
  }

  /** `skill?.skillData?._id`: a null or undefined skill or `skillData` gives `undefined`. */
  function SkillId(s: Option<Skill>): JsId {
    match s
    case None => Undefined
    case Some(skill) =>
      match skill.skillData
      case None => Undefined
      case Some(d) => d.id
  }

  /** `skills.flatMap(skill => skill?.skillData?._id)`: a non-array callback result contributes one element, null and undefined included. */
  function FlatMapSkillIds(skills: seq<Option<Skill>>): (r: seq<JsId>)
    ensures |r| == |skills|
    ensures forall i :: 0 <= i < |skills| ==> r[i] == SkillId(skills[i])
  {
    if skills == [] then [] else [SkillId(skills[0])] + FlatMapSkillIds(skills[1..])
  }

  /** `selectedRole?.skills?.flatMap(...)`: absent when there is no role or no skill list. */
  function SkillsId(role: Option<SelectedRole>): (r: Option<seq<JsId>>)
    ensures r.Some? <==> role.Some? && role.value.skills.Some?
    ensures r.Some? ==> |r.value| == |role.value.skills.value|
    ensures r.Some? ==> forall i :: 0 <= i < |r.value| ==> r.value[i] == SkillId(role.value.skills.value[i])
  {
    match role
    case None => None
    case Some(sr) =>
      match sr.skills
      case None => None
      case Some(skills) => Some(FlatMapSkillIds(skills))
  }
}
