/**
 * Which users a Teamlead may see: the members of every team they lead, plus themselves. The
 * analyse endpoint and the assignable-users endpoint compute this the same way.
 */
module TeamScope {
  import opened Js
  import opened Schema

  /** `teams.findMany({ where: eq(teams.teamleadId, lead) }).map(t => t.id)`, in table order. */
  function LedTeamIds(teams: seq<Team>, lead: string): (r: seq<int>)
    ensures forall id :: id in r <==> exists t :: t in teams && t.teamleadId == Some(lead) && t.id == id
  {
    if teams == [] then []
    else
      var rest := LedTeamIds(teams[1..], lead);
      assert forall t :: t in teams <==> t == teams[0] || t in teams[1..];
      if teams[0].teamleadId == Some(lead) then [teams[0].id] + rest else rest
  }

  /** `teamMembers.findMany({ where: inArray(teamMembers.teamId, teamIds) }).map(m => m.userId)`:
      one entry per membership, so a user in two of the teams appears twice. */
  function MemberUserIds(members: seq<TeamMember>, teamIds: seq<int>): (r: seq<string>)
    ensures |r| <= |members|
    ensures forall u :: u in r <==> exists m :: m in members && m.teamId in teamIds && m.userId == u
  {
    if members == [] then []
    else
      var rest := MemberUserIds(members[1..], teamIds);
      assert forall m :: m in members <==> m == members[0] || m in members[1..];
      if members[0].teamId in teamIds then [members[0].userId] + rest else rest
  }

  lemma {:induction false} NoTeamsNoMembers(members: seq<TeamMember>)
    ensures MemberUserIds(members, []) == []
  {
    if members != [] {
      NoTeamsNoMembers(members[1..]);
    }
  }

  /** The users a Teamlead oversees, not counting themselves. */
  function Members(db: Db, lead: string): seq<string> {
    MemberUserIds(db.teamMembers, LedTeamIds(db.teams, lead))
  }

  /** The Teamlead's scope: `[lead]` when they lead no team; otherwise the member ids, with `lead`
      pushed on the end unless already among them. */
  method TeamleadScope(db: Db, lead: string) returns (ids: seq<string>)
    ensures forall u :: u in ids <==> u == lead || u in Members(db, lead)
    ensures LedTeamIds(db.teams, lead) == [] ==> ids == [lead]
    ensures |ids| == |Members(db, lead)| + (if lead in Members(db, lead) then 0 else 1)
    ensures ids[..|Members(db, lead)|] == Members(db, lead)
  {
    var teamIds := LedTeamIds(db.teams, lead);
    if |teamIds| == 0 {
      NoTeamsNoMembers(db.teamMembers);
      ids := [lead];
      return;
    }
    ids := MemberUserIds(db.teamMembers, teamIds);
    if lead !in ids {
      ids := ids + [lead];
    }
  }
}
