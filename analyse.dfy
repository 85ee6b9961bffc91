/**
 * `GET /api/admin/analyse`: per-agent statistics for Admins (every agent, optionally one team's)
 * and Teamleads (the members of the teams they lead, and themselves), filtered by role and paged.
 */
module Analyse {
  import opened Js
  import opened Seqs
  import opened Http
  import opened Schema
  import opened Pagination
  import opened TeamScope
  import opened AnalyseBulk
  import opened AnalyseStats

  /** The query string. Dates are already read as timestamps; `None` is an absent or empty value. */
  datatype AnalyseQuery = AnalyseQuery(page: Option<string>, limit: Option<string>, dateFrom: Option<int>,
                                       dateTo: Option<int>, teamId: Option<string>, role: Option<string>)

  /** `query.teamId ? parseInt(query.teamId) : undefined`, as far as the later `filterTeamId && ...`
      lets it through: `NaN` and `0` switch the team filter off. */
  function TeamFilter(teamId: Option<string>): (r: Option<int>)
    ensures r.Some? <==> teamId.Some? && teamId.value != "" && ParseIntStr(teamId.value).Some?
                         && ParseIntStr(teamId.value).value != 0
    ensures r.Some? ==> r == ParseIntStr(teamId.value)
  {
    match teamId
    case None => None
    case Some(text) =>
      if text == "" then None
      else
        var n := ParseIntStr(text);
        if n.Some? && n.value != 0 then n else None
  }

  /** `["Admin", "Teamlead", "Agent"].includes(role)` */
  predicate IsRoleName(role: string) {
    role == "Admin" || role == "Teamlead" || role == "Agent"
  }

  predicate RoleFilterApplies(role: Option<string>) {
    role.Some? && IsRoleName(role.value)
  }

  /** The role filter: applied only for one of the three role names, otherwise the list is kept. */
  function RoleFiltered(agents: seq<User>, role: Option<string>): (r: seq<User>)
    ensures |r| <= |agents|
    ensures RoleFilterApplies(role) ==> forall u :: u in r <==> u in agents && u.role == role.value
    ensures !RoleFilterApplies(role) ==> r == agents
  {
    if RoleFilterApplies(role) then Filter(agents, RoleIs(role.value)) else agents
  }

  function RoleIs(name: string): User -> bool {
    (u: User) => u.role == name
  }

  /** `users.findMany({ where: inArray(users.id, ids) })`, in table order. */
  function UsersWithIds(users: seq<User>, ids: seq<string>): (r: seq<User>)
    ensures |r| <= |users|
    ensures forall u :: u in r <==> u in users && u.id in ids
  {
    if users == [] then []
    else
      var rest := UsersWithIds(users[1..], ids);
      assert forall u :: u in users <==> u == users[0] || u in users[1..];
      if users[0].id in ids then [users[0]] + rest else rest
  }

  function IdIn(ids: seq<string>): User -> bool {
    (u: User) => u.id in ids
  }

  /** The id query keeps the table order: it is the filter `u.id in ids`. */
  lemma {:induction false} UsersWithIdsIsFilter(users: seq<User>, ids: seq<string>)
    ensures UsersWithIds(users, ids) == Filter(users, IdIn(ids))
  {
    if users != [] {
      UsersWithIdsIsFilter(users[1..], ids);
    }
  }

  /** Self and the members of the teams `lead` leads. */
  function Scope(db: Db, lead: string): User -> bool {
    (u: User) => u.id == lead || u.id in Members(db, lead)
  }

  /** The agents before the role filter, or the early exit for an Admin's team without members. */
  datatype AgentPool = NoTeamMembers | Pool(agents: seq<User>)

  /** Steps 3 and 4 of the handler: the Teamlead's allowed ids, then the agent query. The
      combination of both id lists is never reached, because only a Teamlead has allowed ids and
      only an Admin's team filter is honoured. */
  method SelectAgents(db: Db, user: SessionUser, teamFilter: Option<int>) returns (r: AgentPool)
    ensures r.NoTeamMembers? <==>
      user.role == "Admin" && teamFilter.Some? && MemberUserIds(db.teamMembers, [teamFilter.value]) == []
    ensures r.Pool? && user.role == "Admin" && teamFilter.Some? ==>
      forall u :: u in r.agents <==> u in db.users && u.id in MemberUserIds(db.teamMembers, [teamFilter.value])
    ensures r.Pool? && user.role == "Teamlead" ==>
      forall u :: u in r.agents <==> u in db.users && (u.id == user.id || u.id in Members(db, user.id))
    ensures user.role != "Teamlead" && !(user.role == "Admin" && teamFilter.Some?) ==> r == Pool(db.users)
    ensures r.Pool? && user.role == "Admin" && teamFilter.Some? ==>
      r.agents == Filter(db.users, IdIn(MemberUserIds(db.teamMembers, [teamFilter.value])))
    ensures r.Pool? && user.role == "Teamlead" ==> r.agents == Filter(db.users, Scope(db, user.id))
    ensures r.Pool? ==> |r.agents| <= |db.users|
  {
    var allowed: Option<seq<string>> := None;
    if user.role == "Teamlead" {
      var ids := TeamleadScope(db, user.id);
      allowed := Some(ids);
    }
    if teamFilter.Some? && user.role == "Admin" {
      var teamAgentIds := MemberUserIds(db.teamMembers, [teamFilter.value]);
      if |teamAgentIds| == 0 {
        return NoTeamMembers;
      }
      UsersWithIdsIsFilter(db.users, teamAgentIds);
      return Pool(UsersWithIds(db.users, teamAgentIds));
    } else if allowed.Some? {
      UsersWithIdsIsFilter(db.users, allowed.value);
      FilterCongruent(db.users, IdIn(allowed.value), Scope(db, user.id));
      return Pool(UsersWithIds(db.users, allowed.value));
    } else {
      return Pool(db.users);
    }
  }

  /** Who may appear in the analysis for `user`. */
  predicate Visible(db: Db, user: SessionUser, q: AnalyseQuery, u: User) {
    && (RoleFilterApplies(q.role) ==> u.role == q.role.value)
    && (user.role == "Teamlead" ==> u.id == user.id || u.id in Members(db, user.id))
    && (user.role == "Admin" && TeamFilter(q.teamId).Some? ==>
          u.id in MemberUserIds(db.teamMembers, [TeamFilter(q.teamId).value]))
  }

  function VisibleTo(db: Db, user: SessionUser, q: AnalyseQuery): User -> bool {
    (u: User) => Visible(db, user, q, u)
  }

  /** The agents the analysis lists for `user`, in table order, before paging. */
  function VisibleUsers(db: Db, user: SessionUser, q: AnalyseQuery): seq<User> {
    Filter(db.users, VisibleTo(db, user, q))
  }

  /** A pool cut out of the user table by `p`, then role-filtered, is the visible list when
      visibility is `p` and the role filter together. */
  lemma PoolThenRole(db: Db, user: SessionUser, q: AnalyseQuery, p: User -> bool)
    requires forall u :: u in db.users ==>
      (Visible(db, user, q, u) <==> p(u) && (RoleFilterApplies(q.role) ==> u.role == q.role.value))
    ensures RoleFiltered(Filter(db.users, p), q.role) == VisibleUsers(db, user, q)
  {
    if RoleFilterApplies(q.role) {
      FilterFilter(db.users, p, RoleIs(q.role.value), VisibleTo(db, user, q));
    } else {
      FilterCongruent(db.users, p, VisibleTo(db, user, q));
    }
  }

  /** One agent's entry; `avgTimeToContact` is not part of this model. `statusKeys` is the order in
      which the `statusBreakdown` record lists its keys. */
  datatype AgentStats = AgentStats(
    agentId: string, agentName: string, agentEmail: string, agentRole: string, teamName: Option<string>,
    totalAssigned: nat, nichtAngefasst: nat, erledigtCount: nat, offenCount: int,
    statusKeys: seq<string>, statusCounts: map<string, nat>, totalActivities: nat,
    activitiesByType: TypeCounts, recentAssignment: Option<int>)

  function TaskStatus(t: Task): string { t.status }
  function ActivityKind(a: Activity): string { a.activityType }

  /** The statistics of one agent from its assignments, tasks and activities (step 6). */
  method AgentStatistics(agent: User, teamName: Option<string>, rows: seq<Assignment>, tasks: seq<Task>,
                         activities: seq<Activity>) returns (s: AgentStats)
    ensures s.agentId == agent.id && s.agentName == agent.name && s.agentEmail == agent.email
    ensures s.agentRole == agent.role && s.teamName == teamName
    ensures s.totalAssigned == |rows|
    ensures s.statusKeys == OwnKeyOrder(Dedup(MapSeq(tasks, TaskStatus)))
    ensures s.statusCounts == CountsOf(MapSeq(tasks, TaskStatus))
    ensures s.nichtAngefasst == Occurrences(MapSeq(tasks, TaskStatus), "Nicht angefasst")
    ensures s.erledigtCount == Occurrences(MapSeq(tasks, TaskStatus), "Erledigt")
    ensures s.offenCount == |tasks| - s.erledigtCount >= 0
    ensures s.totalActivities == |activities|
    ensures var kinds := MapSeq(activities, ActivityKind);
      && s.activitiesByType.call == Occurrences(kinds, "CALL")
      && s.activitiesByType.email == Occurrences(kinds, "EMAIL")
      && s.activitiesByType.meeting == Occurrences(kinds, "MEETING")
      && s.activitiesByType.note == Occurrences(kinds, "NOTE")
    ensures s.activitiesByType.call + s.activitiesByType.email + s.activitiesByType.meeting
            + s.activitiesByType.note <= s.totalActivities
    ensures s.recentAssignment == RecentAssignment(rows)
  {
    var statuses := MapSeq(tasks, TaskStatus);
    var keys, counts, untouched := StatusTally(statuses, "Nicht angefasst");
    // `statusBreakdown["Erledigt"] ?? 0`
    var done := if "Erledigt" in counts then counts["Erledigt"] else 0;
    var types := TypeTally(MapSeq(activities, ActivityKind), "CALL", "EMAIL", "MEETING", "NOTE");
    s := AgentStats(agent.id, agent.name, agent.email, agent.role, teamName,
                    |rows|, untouched, done, |tasks| - done, OwnKeyOrder(keys), counts, |activities|,
                    types, RecentAssignment(rows));
  }

  /** The entry of the agent with id `id`, computed from that agent's groups of the bulk results
      and from its team membership. */
  predicate EntryFor(s: AgentStats, id: string, memberships: seq<TeamMember>, teams: seq<Team>,
                     byAgent: map<string, seq<Assignment>>, tasksByAgent: map<string, seq<Task>>,
                     activitiesByAgent: map<string, seq<Activity>>)
  {
    && s.agentId == id
    && s.teamName == TeamNameOf(memberships, teams, id)
    && s.totalAssigned == |GroupOf(byAgent, id)|
    && s.recentAssignment == RecentAssignment(GroupOf(byAgent, id))
    && s.statusCounts == CountsOf(MapSeq(GroupOf(tasksByAgent, id), TaskStatus))
    && s.erledigtCount == Occurrences(MapSeq(GroupOf(tasksByAgent, id), TaskStatus), "Erledigt")
    && s.offenCount == |GroupOf(tasksByAgent, id)| - s.erledigtCount
    && s.totalActivities == |GroupOf(activitiesByAgent, id)|
  }

  /** The body of the `map` below: the agent's groups (an empty group when it has none) and team. */
  method AgentEntry(agent: User, memberships: seq<TeamMember>, teams: seq<Team>,
                    byAgent: map<string, seq<Assignment>>, tasksByAgent: map<string, seq<Task>>,
                    activitiesByAgent: map<string, seq<Activity>>)
    returns (s: AgentStats)
    ensures EntryFor(s, agent.id, memberships, teams, byAgent, tasksByAgent, activitiesByAgent)
  {
    s := AgentStatistics(agent, TeamNameOf(memberships, teams, agent.id), GroupOf(byAgent, agent.id),
                         GroupOf(tasksByAgent, agent.id), GroupOf(activitiesByAgent, agent.id));
  }

  /** `paginatedAgents.map(agent => ...)` over the grouped bulk results. */
  method PageStatistics(agents: seq<User>, memberships: seq<TeamMember>, teams: seq<Team>,
                        byAgent: map<string, seq<Assignment>>, tasksByAgent: map<string, seq<Task>>,
                        activitiesByAgent: map<string, seq<Activity>>)
    returns (data: seq<AgentStats>)
    ensures |data| == |agents|
    ensures forall i :: 0 <= i < |agents| ==>
      EntryFor(data[i], agents[i].id, memberships, teams, byAgent, tasksByAgent, activitiesByAgent)
  {
    data := [];
    var i := 0;
    while i < |agents|
      invariant 0 <= i <= |agents|
      invariant |data| == i
      invariant forall j :: 0 <= j < i ==>
        EntryFor(data[j], agents[j].id, memberships, teams, byAgent, tasksByAgent, activitiesByAgent)
    {
      var s := AgentEntry(agents[i], memberships, teams, byAgent, tasksByAgent, activitiesByAgent);
      var longer := data + [s];
      assert forall j :: 0 <= j < i ==> longer[j] == data[j];
      data := longer;
      i := i + 1;
    }
  }

  datatype AnalyseResult = AnalyseResult(data: seq<AgentStats>, total: int, page: int, limit: int, pages: int)

  /** `gte(assignments.assignedAt, dateFrom)` and `lte(assignments.assignedAt, dateTo)`, each only when given. */
  predicate InDateRange(from: Option<int>, to: Option<int>, a: Assignment) {
    (from.None? || a.assignedAt >= from.value) && (to.None? || a.assignedAt <= to.value)
  }

  /** The assignment query: `inArray(assignments.agentId, pageIds)` (a NULL agent never matches)
      and the date bounds. */
  predicate AssignmentForPage(pageIds: seq<string>, from: Option<int>, to: Option<int>, a: Assignment) {
    a.agentId.Some? && a.agentId.value in pageIds && InDateRange(from, to, a)
  }

  predicate TaskForPage(pageIds: seq<string>, t: Task) {
    t.assignedTo.Some? && t.assignedTo.value in pageIds
  }

  predicate ActivityForPage(pageIds: seq<string>, a: Activity) {
    a.userId.Some? && a.userId.value in pageIds
  }

  function UserId(u: User): string { u.id }
  function AssignmentAgent(a: Assignment): Option<string> { a.agentId }
  function AssignmentCompany(a: Assignment): int { a.companyId }
  function TaskAssignee(t: Task): Option<string> { t.assignedTo }
  function TaskCompany(t: Task): int { t.companyId }
  function ActivityUser(a: Activity): Option<string> { a.userId }
  function ActivityCompany(a: Activity): int { a.companyId }

  /** Steps 3 and 4 and the role filter: the agents the analysis lists, before paging. */
  method VisibleAgents(db: Db, user: SessionUser, q: AnalyseQuery) returns (r: AgentPool)
    ensures r.NoTeamMembers? <==>
      (user.role == "Admin" && TeamFilter(q.teamId).Some?
       && MemberUserIds(db.teamMembers, [TeamFilter(q.teamId).value]) == [])
    ensures r.Pool? ==> |r.agents| <= |db.users|
    ensures r.Pool? ==> r.agents == VisibleUsers(db, user, q)
    ensures r.NoTeamMembers? ==> VisibleUsers(db, user, q) == []
  {
    var teamFilter := TeamFilter(q.teamId);
    var pool := SelectAgents(db, user, teamFilter);
    if pool.NoTeamMembers? {
      FilterNone(db.users, VisibleTo(db, user, q));
      return NoTeamMembers;
    }
    if user.role == "Admin" && teamFilter.Some? {
      PoolThenRole(db, user, q, IdIn(MemberUserIds(db.teamMembers, [teamFilter.value])));
    } else if user.role == "Teamlead" {
      PoolThenRole(db, user, q, Scope(db, user.id));
    } else if RoleFilterApplies(q.role) {
      FilterCongruent(db.users, RoleIs(q.role.value), VisibleTo(db, user, q));
    } else {
      FilterAll(db.users, VisibleTo(db, user, q));
    }
    return Pool(RoleFiltered(pool.agents, q.role));
  }

  /** Step 5 and 6: the bulk queries for the agents of the page, grouped by agent, and the
      statistics of each agent. */
  method BulkStatistics(db: Db, q: AnalyseQuery, pageAgents: seq<User>) returns (data: seq<AgentStats>)
    ensures |data| == |pageAgents|
    ensures forall i :: 0 <= i < |pageAgents| ==> data[i].agentId == pageAgents[i].id
    ensures forall i :: 0 <= i < |pageAgents| ==>
      data[i].totalAssigned == |Group(Filter(db.assignments, (a: Assignment) =>
        AssignmentForPage(MapSeq(pageAgents, UserId), q.dateFrom, q.dateTo, a)), AssignmentAgent, pageAgents[i].id)|
  {
    var pageIds := MapSeq(pageAgents, UserId);

    // the bulk queries of step 5
    var memberships := Filter(db.teamMembers, (m: TeamMember) => m.userId in pageIds);
    var assignmentRows := Filter(db.assignments, (a: Assignment) => AssignmentForPage(pageIds, q.dateFrom, q.dateTo, a));
    var byAgent := GroupByKey(assignmentRows, AssignmentAgent);
    var companyIds := Dedup(MapSeq(assignmentRows, AssignmentCompany));
    var chunks: seq<seq<int>> := [];
    if |companyIds| > 0 {
      chunks := Chunk(companyIds, ChunkSize(|pageIds|));
    }
    var taskRows: seq<Task> := [];
    var activityRows: seq<Activity> := [];
    if |companyIds| > 0 {
      taskRows := FetchInChunks(db.tasks, (t: Task) => TaskForPage(pageIds, t), TaskCompany, chunks);
      activityRows := FetchInChunks(db.activities, (a: Activity) => ActivityForPage(pageIds, a), ActivityCompany, chunks);
    }
    var tasksByAgent := GroupByKey(taskRows, TaskAssignee);
    var activitiesByAgent := GroupByKey(activityRows, ActivityUser);

    data := PageStatistics(pageAgents, memberships, db.teams, byAgent, tasksByAgent, activitiesByAgent);
    forall i | 0 <= i < |pageAgents|
      ensures data[i].totalAssigned == |Group(assignmentRows, AssignmentAgent, pageAgents[i].id)|
    {
      GroupOfIsGroup(assignmentRows, AssignmentAgent, byAgent, pageAgents[i].id);
    }
  }

  /** `data` has one entry per agent of `paginatedAgents = agents.slice(offset, offset + limit)`,
      in that order. */
  predicate ListsPage(db: Db, user: SessionUser, q: AnalyseQuery, data: seq<AgentStats>, page: int, limit: int) {
    var offset := Offset(page, limit);
    var onPage := Slice(VisibleUsers(db, user, q), offset, offset + limit);
    |data| == |onPage| && forall i :: 0 <= i < |onPage| ==> data[i].agentId == onPage[i].id
  }

  /** Steps 2 to 6 for a signed-in Admin or Teamlead: the paging parameters, the visible agents,
      the page of them and their statistics. */
  method AnalysePage(db: Db, user: SessionUser, q: AnalyseQuery) returns (res: AnalyseResult)
    ensures res.page == IntParamOr(q.page, 1) && res.limit == IntParamOr(q.limit, 50)
    ensures 0 <= res.total && res.pages == Pages(res.total, res.limit)
    ensures user.role == "Admin" && TeamFilter(q.teamId).Some?
            && MemberUserIds(db.teamMembers, [TeamFilter(q.teamId).value]) == [] ==>
      res.data == [] && res.total == 0 && res.pages == 0
    ensures res.page >= 1 && res.limit > 0 ==> |res.data| <= res.limit
    ensures res.total == |VisibleUsers(db, user, q)|
    ensures ListsPage(db, user, q, res.data, res.page, res.limit)
  {
    var page := IntParamOr(q.page, 1);
    var limit := IntParamOr(q.limit, 50);
    var offset := Offset(page, limit);
    var pool := VisibleAgents(db, user, q);
    if pool.NoTeamMembers? {
      PagesOfNothing(limit);
      assert ListsPage(db, user, q, [], page, limit);
      return AnalyseResult([], 0, page, limit, 0);
    }
    var agents := pool.agents;
    var total := |agents|;
    var pages := Pages(total, limit);
    var pageAgents := Slice(agents, offset, offset + limit);
    var data := BulkStatistics(db, q, pageAgents);
    assert ListsPage(db, user, q, data, page, limit);
    if page >= 1 && limit > 0 {
      OffsetNonNegative(page, limit);
      assert |pageAgents| <= limit;
    }
    res := AnalyseResult(data, total, page, limit, pages);
  }

  /** Every agent on a page cut from the visible list is visible. */
  lemma ListedAgentsVisible(db: Db, user: SessionUser, q: AnalyseQuery, data: seq<AgentStats>, page: int, limit: int)
    requires ListsPage(db, user, q, data, page, limit)
    ensures forall d :: d in data ==> exists u :: u in db.users && u.id == d.agentId && Visible(db, user, q, u)
  {
    var offset := Offset(page, limit);
    var onPage := Slice(VisibleUsers(db, user, q), offset, offset + limit);
    SliceMembers(VisibleUsers(db, user, q), offset, offset + limit);
    forall d | d in data ensures exists u :: u in db.users && u.id == d.agentId && Visible(db, user, q, u) {
      var i :| 0 <= i < |data| && data[i] == d;
      assert onPage[i] in VisibleUsers(db, user, q);
    }
  }

  /** The handler. */
  method Analyse(session: Option<SessionUser>, db: Db, q: AnalyseQuery) returns (r: Response<AnalyseResult>)
    ensures session.None? ==> r == Err(HttpError(401, "Unauthorized"))
    ensures session.Some? && !IsAdminOrTeamleadRole(session.value.role) ==>
      r == Err(HttpError(403, "Forbidden - Admin or Teamlead access required"))
    ensures r.Ok? <==> session.Some? && IsAdminOrTeamleadRole(session.value.role)
    ensures r.Ok? ==> r.value.page == IntParamOr(q.page, 1) && r.value.limit == IntParamOr(q.limit, 50)
    ensures r.Ok? ==> 0 <= r.value.total && r.value.pages == Pages(r.value.total, r.value.limit)
    ensures r.Ok? && session.value.role == "Admin" && TeamFilter(q.teamId).Some?
            && MemberUserIds(db.teamMembers, [TeamFilter(q.teamId).value]) == [] ==>
      r.value.data == [] && r.value.total == 0 && r.value.pages == 0
    ensures r.Ok? ==> forall d :: d in r.value.data ==>
      exists u :: u in db.users && u.id == d.agentId && Visible(db, session.value, q, u)
    ensures r.Ok? && r.value.page >= 1 && r.value.limit > 0 ==> |r.value.data| <= r.value.limit
    ensures r.Ok? ==> r.value.total == |VisibleUsers(db, session.value, q)|
    ensures r.Ok? ==> ListsPage(db, session.value, q, r.value.data, r.value.page, r.value.limit)
  {
    var gate := RequireAdminOrTeamlead(session);
    if gate.Err? {
      return Err(gate.error);
    }
    var user := gate.value;
    assert session == Some(user) && IsAdminOrTeamleadRole(user.role);
    var res := AnalysePage(db, user, q);
    ListedAgentsVisible(db, user, q, res.data, res.page, res.limit);
    r := Ok(res);
  }
}
