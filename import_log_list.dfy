/**
 * `GET /api/admin/import-log`: the administrators' history of customer imports. The query string
 * selects a page and filters by import date, importer, project name, target team and target agent;
 * the filters become a list of SQL conditions built one `push` at a time. The logs on the page are
 * then decorated with the names of the users and teams they mention, looked up in two maps that
 * are filled row by row.
 *
 * Dates in the query arrive here already parsed: `dateFrom` and `dateTo` are the instants of
 * non-empty parameters, `None` when the parameter is absent or empty. Days are UTC days.
 */
module ImportLogList {
  import opened Js
  import opened Seqs
  import opened Sorting
  import opened Http
  import opened Pagination
  import opened Schema
  import opened SqlLike

  const NotSignedIn := HttpError(401, "Nicht autorisiert")
  const AdminsOnly := HttpError(403, "Verboten: Nur Administratoren können Import-Logs einsehen.")
  const DefaultPage := 1
  const DefaultLimit := 20
  const DayMs := 86400000

  /** Only a signed-in Admin may read the history. */
  function RequireAdmin(session: Option<SessionUser>): (r: Response<SessionUser>)
    ensures session.None? ==> r == Err(NotSignedIn)
    ensures session.Some? && session.value.role != "Admin" ==> r == Err(AdminsOnly)
    ensures r.Ok? <==> session.Some? && session.value.role == "Admin"
    ensures r.Ok? ==> r.value == session.value
  {
    match session
    case None => Err(NotSignedIn)
    case Some(u) => if u.role != "Admin" then Err(AdminsOnly) else Ok(u)
  }

  datatype LogQuery = LogQuery(page: Option<string>, limit: Option<string>, dateFrom: Option<int>,
                               dateTo: Option<int>, importedBy: Option<string>, projectName: Option<string>,
                               targetTeamId: Option<string>, targetAgentId: Option<string>)

  /** A query parameter that is present and not empty, i.e. truthy. */
  predicate Given(p: Option<string>) {
    p.Some? && p.value != ""
  }

  /** `query.targetTeamId ? parseInt(query.targetTeamId) : undefined`, as far as `if (targetTeamId)`
      lets it through: `NaN` and `0` select no team. */
  function TeamFilter(q: LogQuery): (r: Option<int>)
    ensures r.Some? ==> r.value != 0 && Given(q.targetTeamId)
    ensures !Given(q.targetTeamId) ==> r.None?
  {
    if Given(q.targetTeamId) then
      match ParseIntStr(q.targetTeamId.value)
      case Some(n) => if n != 0 then Some(n) else None
      case None => None
    else None
  }

  /** A team id written out in the query string is the team filtered by; `0` filters nothing. */
  lemma TeamFilterOfNumber(q: LogQuery, n: int)
    requires q.targetTeamId == Some(IntToString(n))
    ensures TeamFilter(q) == if n == 0 then None else Some(n)
  {
    ParseIntOfIntToString(n);
  }

  // ---------------------------------------------------------------- the end of the `dateTo` day

  /** `dateToEnd.setHours(23, 59, 59, 999)`: the last millisecond of the day holding `t`. */
  function EndOfDay(t: int): (e: int)
    ensures t <= e && e - t < DayMs
    ensures e % DayMs == DayMs - 1
  {
    (t / DayMs) * DayMs + DayMs - 1
  }

  /** `createdAt <= dateToEnd` keeps exactly the instants on the day of `dateTo` or before it. */
  lemma UntilEndOfDay(t: int, u: int)
    ensures u <= EndOfDay(t) <==> u / DayMs <= t / DayMs
  {
    var d := t / DayMs;
    var q := u / DayMs;
    assert u == q * DayMs + u % DayMs;
    if q <= d {
      assert q * DayMs <= d * DayMs;
    } else {
      assert q * DayMs >= (d + 1) * DayMs;
    }
  }

  // ---------------------------------------------------------------- the WHERE conditions

  datatype Condition =
    | CreatedFrom(from: int)       // gte(importLogs.createdAt, new Date(dateFrom))
    | CreatedUntil(until: int)     // lte(importLogs.createdAt, dateToEnd)
    | ImportedByIs(user: string)   // eq(importLogs.importedBy, importedBy)
    | ProjectLike(pattern: string) // COALESCE(projectName, '') LIKE '%name%'
    | TeamIs(team: int)            // eq(importLogs.targetTeamId, targetTeamId)
    | AgentIs(agent: string)       // eq(importLogs.targetAgentId, targetAgentId)

  function Coalesce(v: Option<string>): string {
    if v.Some? then v.value else ""
  }

  /** Whether a stored log satisfies one condition. SQLite's comparison of the date column with a
      bound instant is never true for NULL, and a TEXT is greater than every number. */
  predicate Holds(c: Condition, l: ImportLog) {
    match c
    case CreatedFrom(from) => l.createdAt.TextStamp? || (l.createdAt.At? && l.createdAt.ms >= from)
    case CreatedUntil(until) => l.createdAt.At? && l.createdAt.ms <= until
    case ImportedByIs(user) => l.importedBy == user
    case ProjectLike(pattern) => Like(Coalesce(l.projectName), pattern)
    case TeamIs(team) => l.targetTeamId == Some(team)
    case AgentIs(agent) => l.targetAgentId == Some(agent)
  }

  /** `and(...whereConditions)`, or no `WHERE` at all when the list is empty. */
  predicate Where(conds: seq<Condition>, l: ImportLog) {
    forall c :: c in conds ==> Holds(c, l)
  }

  /** Which conditions a query asks for. */
  predicate Requested(q: LogQuery, c: Condition) {
    match c
    case CreatedFrom(from) => q.dateFrom == Some(from)
    case CreatedUntil(until) => q.dateTo.Some? && until == EndOfDay(q.dateTo.value)
    case ImportedByIs(user) => Given(q.importedBy) && user == q.importedBy.value
    case ProjectLike(pattern) => Given(q.projectName) && pattern == "%" + q.projectName.value + "%"
    case TeamIs(team) => TeamFilter(q) == Some(team)
    case AgentIs(agent) => Given(q.targetAgentId) && agent == q.targetAgentId.value
  }

  predicate NoFilter(q: LogQuery) {
    q.dateFrom.None? && q.dateTo.None? && !Given(q.importedBy) && !Given(q.projectName)
    && TeamFilter(q).None? && !Given(q.targetAgentId)
  }

  /** The position of a condition's `push` in the handler. */
  function Kind(c: Condition): nat {
    match c
    case CreatedFrom(_) => 0
    case CreatedUntil(_) => 1
    case ImportedByIs(_) => 2
    case ProjectLike(_) => 3
    case TeamIs(_) => 4
    case AgentIs(_) => 5
  }

  /** `conds` holds the requested conditions among the first `k` kinds, each once, in push order. */
  ghost predicate PushedUpTo(q: LogQuery, conds: seq<Condition>, k: nat) {
    && (forall c :: c in conds <==> Requested(q, c) && Kind(c) < k)
    && (forall i, j :: 0 <= i < j < |conds| ==> Kind(conds[i]) < Kind(conds[j]))
    && |conds| <= k
  }

  /** A query without filters is exactly one that requests no condition. */
  lemma NoFilterRequestsNothing(q: LogQuery)
    ensures NoFilter(q) <==> forall c :: !Requested(q, c)
  {
    if q.dateFrom.Some? { assert Requested(q, CreatedFrom(q.dateFrom.value)); }
    if q.dateTo.Some? { assert Requested(q, CreatedUntil(EndOfDay(q.dateTo.value))); }
    if Given(q.importedBy) { assert Requested(q, ImportedByIs(q.importedBy.value)); }
    if Given(q.projectName) { assert Requested(q, ProjectLike("%" + q.projectName.value + "%")); }
    if TeamFilter(q).Some? { assert Requested(q, TeamIs(TeamFilter(q).value)); }
    if Given(q.targetAgentId) { assert Requested(q, AgentIs(q.targetAgentId.value)); }
  }

  /** Whether the query asks for a condition of kind `k`, and the condition it then pushes. */
  function Wanted(q: LogQuery, k: nat): (r: Option<Condition>)
    requires k < 6
    ensures r.Some? ==> Kind(r.value) == k && Requested(q, r.value)
    ensures r.None? ==> forall c :: Kind(c) == k ==> !Requested(q, c)
  {
    if k == 0 then (if q.dateFrom.Some? then Some(CreatedFrom(q.dateFrom.value)) else None)
    else if k == 1 then (if q.dateTo.Some? then Some(CreatedUntil(EndOfDay(q.dateTo.value))) else None)
    else if k == 2 then (if Given(q.importedBy) then Some(ImportedByIs(q.importedBy.value)) else None)
    else if k == 3 then (if Given(q.projectName) then Some(ProjectLike("%" + q.projectName.value + "%")) else None)
    else if k == 4 then (if TeamFilter(q).Some? then Some(TeamIs(TeamFilter(q).value)) else None)
    else (if Given(q.targetAgentId) then Some(AgentIs(q.targetAgentId.value)) else None)
  }

  /** What the first `k` pushes leave in the list. */
  function PushedBy(q: LogQuery, k: nat): seq<Condition>
    requires k <= 6
  {
    if k == 0 then []
    else
      var w := Wanted(q, k - 1);
      PushedBy(q, k - 1) + (if w.Some? then [w.value] else [])
  }

  /** After `k` pushes the list holds the requested conditions of the first `k` kinds. */
  lemma {:induction false} PushedByUpTo(q: LogQuery, k: nat)
    requires k <= 6
    ensures PushedUpTo(q, PushedBy(q, k), k)
  {
    if k > 0 {
      PushedByUpTo(q, k - 1);
      var prev := PushedBy(q, k - 1);
      var w := Wanted(q, k - 1);
      var next := PushedBy(q, k);
      assert next == prev + (if w.Some? then [w.value] else []);
      forall d ensures d in next <==> Requested(q, d) && Kind(d) < k {
        if Kind(d) == k - 1 && Requested(q, d) {
          assert w.Some? && d == w.value;
        }
      }
      forall i, j | 0 <= i < j < |next| ensures Kind(next[i]) < Kind(next[j]) {
        if j == |prev| {
          assert next[i] in prev;
        } else {
          assert next[i] == prev[i] && next[j] == prev[j];
        }
      }
    }
  }

  /** After the six pushes the list holds every requested condition once. */
  lemma AllPushed(q: LogQuery, n: nat)
    requires n == 6
    ensures var conds := PushedBy(q, n);
      && (forall c :: c in conds <==> Requested(q, c))
      && (conds == [] <==> NoFilter(q))
      && Distinct(conds) && |conds| <= 6
  {
    var conds := PushedBy(q, n);
    PushedByUpTo(q, n);
    assert forall c :: Kind(c) < n;
    NoFilterRequestsNothing(q);
    if conds != [] {
      assert conds[0] in conds;
    }
  }

  /** The list of conditions, one `push` per filter present. */
  method WhereConditions(q: LogQuery) returns (conds: seq<Condition>)
    ensures forall c :: c in conds <==> Requested(q, c)
    ensures conds == [] <==> NoFilter(q)
    ensures Distinct(conds) && |conds| <= 6
  {
    conds := [];
    conds := conds + (if q.dateFrom.Some? then [CreatedFrom(q.dateFrom.value)] else []);
    assert conds == PushedBy(q, 1);
    conds := conds + (if q.dateTo.Some? then [CreatedUntil(EndOfDay(q.dateTo.value))] else []);
    assert conds == PushedBy(q, 2);
    conds := conds + (if Given(q.importedBy) then [ImportedByIs(q.importedBy.value)] else []);
    assert conds == PushedBy(q, 3);
    conds := conds + (if Given(q.projectName) then [ProjectLike("%" + q.projectName.value + "%")] else []);
    assert conds == PushedBy(q, 4);
    var team := TeamFilter(q);
    conds := conds + (if team.Some? then [TeamIs(team.value)] else []);
    assert conds == PushedBy(q, 5);
    conds := conds + (if Given(q.targetAgentId) then [AgentIs(q.targetAgentId.value)] else []);
    assert conds == PushedBy(q, 6);
    AllPushed(q, 6);
  }

  /** The filter as a reader of the page understands it, written without conditions. */
  predicate Matches(q: LogQuery, l: ImportLog) {
    && (q.dateFrom.Some? ==> l.createdAt.TextStamp? || (l.createdAt.At? && q.dateFrom.value <= l.createdAt.ms))
    && (q.dateTo.Some? ==> l.createdAt.At? && l.createdAt.ms / DayMs <= q.dateTo.value / DayMs)
    && (Given(q.importedBy) ==> l.importedBy == q.importedBy.value)
    && (Given(q.projectName) ==> Like(Coalesce(l.projectName), "%" + q.projectName.value + "%"))
    && (TeamFilter(q).Some? ==> l.targetTeamId == TeamFilter(q))
    && (Given(q.targetAgentId) ==> l.targetAgentId == q.targetAgentId)
  }

  /** The conditions built for a query keep exactly the logs the query describes. */
  lemma WhereIsMatches(q: LogQuery, conds: seq<Condition>, l: ImportLog)
    requires forall c :: c in conds <==> Requested(q, c)
    ensures Where(conds, l) <==> Matches(q, l)
  {
    if q.dateTo.Some? && l.createdAt.At? {
      UntilEndOfDay(q.dateTo.value, l.createdAt.ms);
    }
    if Where(conds, l) {
      if q.dateFrom.Some? { assert CreatedFrom(q.dateFrom.value) in conds; }
      if q.dateTo.Some? { assert CreatedUntil(EndOfDay(q.dateTo.value)) in conds; }
      if Given(q.importedBy) { assert ImportedByIs(q.importedBy.value) in conds; }
      if Given(q.projectName) { assert ProjectLike("%" + q.projectName.value + "%") in conds; }
      if TeamFilter(q).Some? { assert TeamIs(TeamFilter(q).value) in conds; }
      if Given(q.targetAgentId) { assert AgentIs(q.targetAgentId.value) in conds; }
    }
  }

  /** A project name without `%` or `_` filters by case-insensitive substring. */
  lemma ProjectFilterIsSubstring(q: LogQuery, l: ImportLog)
    requires Given(q.projectName) && Literal(q.projectName.value)
    ensures Like(Coalesce(l.projectName), "%" + q.projectName.value + "%")
        <==> ContainsFolded(Coalesce(l.projectName), q.projectName.value)
  {
    ContainsLike(Coalesce(l.projectName), q.projectName.value);
  }

  /** The logs the query selects, in table order. */
  function Matching(q: LogQuery, logs: seq<ImportLog>): (r: seq<ImportLog>)
    ensures forall l :: l in r <==> l in logs && Matches(q, l)
    ensures NoFilter(q) ==> r == logs
  {
    var r := Filter(logs, l => Matches(q, l));
    assert NoFilter(q) ==> r == logs by {
      if NoFilter(q) {
        FilterAll(logs, l => Matches(q, l));
      }
    }
    r
  }

  /** `DESC` over the date column as SQLite orders its storage classes (NULL, then numbers, then
      TEXT, ascending): TEXT values first, in descending character order, then instants newest
      first, then NULL. */
  predicate StampDesc(a: Stamp, b: Stamp) {
    match a
    case TextStamp(x) => b.TextStamp? ==> StrLe(b.text, x)
    case At(x) => !b.TextStamp? && (b.At? ==> b.ms <= x)
    case NullStamp => b.NullStamp?
  }

  /** `orderBy(desc(importLogs.createdAt))` */
  predicate NewerFirst(a: ImportLog, b: ImportLog) {
    StampDesc(a.createdAt, b.createdAt)
  }

  lemma NewerFirstOrder()
    ensures TotalPreorder(NewerFirst)
  {
    forall a: ImportLog, b: ImportLog ensures NewerFirst(a, b) || NewerFirst(b, a) {
      if a.createdAt.TextStamp? && b.createdAt.TextStamp? {
        StrLeTotal(a.createdAt.text, b.createdAt.text);
      }
    }
    forall a: ImportLog, b: ImportLog, c: ImportLog | NewerFirst(a, b) && NewerFirst(b, c)
      ensures NewerFirst(a, c)
    {
      if a.createdAt.TextStamp? && b.createdAt.TextStamp? && c.createdAt.TextStamp? {
        StrLeTransitive(c.createdAt.text, b.createdAt.text, a.createdAt.text);
      }
    }
  }

  /** A date column holding TEXT passes a `dateFrom` filter but never a `dateTo` filter, and is
      listed before every log with a real date or none. */
  lemma TextDateAboveEveryInstant(l: ImportLog, m: ImportLog, from: int, until: int)
    requires l.createdAt.TextStamp? && !m.createdAt.TextStamp?
    ensures Holds(CreatedFrom(from), l) && !Holds(CreatedUntil(until), l)
    ensures NewerFirst(l, m) && !NewerFirst(m, l)
  {
  }

  /** Every log the query selects, newest first. */
  function Ordered(q: LogQuery, logs: seq<ImportLog>): (r: seq<ImportLog>)
    ensures SortedBy(r, NewerFirst)
    ensures multiset(r) == multiset(Matching(q, logs))
    ensures |r| == |Matching(q, logs)|
  {
    NewerFirstOrder();
    SortByFacts(Matching(q, logs), NewerFirst);
    var r := SortBy(Matching(q, logs), NewerFirst);
    assert |r| == |multiset(r)|;
    r
  }

  /** The logs of the requested page, newest first. */
  function PageLogs(q: LogQuery, logs: seq<ImportLog>): (r: seq<ImportLog>)
    ensures IntParamOr(q.limit, DefaultLimit) >= 0 ==> |r| <= IntParamOr(q.limit, DefaultLimit)
    ensures forall l :: l in r ==> l in logs && Matches(q, l)
    ensures SortedBy(r, NewerFirst)
    ensures var limit := IntParamOr(q.limit, DefaultLimit);
      r == LimitOffset(Ordered(q, logs), limit, Offset(IntParamOr(q.page, DefaultPage), limit))
  {
    var ordered := Ordered(q, logs);
    SortedPage(ordered, NewerFirst, IntParamOr(q.page, DefaultPage), IntParamOr(q.limit, DefaultLimit));
    assert forall l :: l in ordered ==> l in multiset(Matching(q, logs));
    PageOf(ordered, IntParamOr(q.page, DefaultPage), IntParamOr(q.limit, DefaultLimit))
  }

  /** The page number is not a filter: every page of one query cuts the same ordered list. */
  lemma OrderedIgnoresPage(q: LogQuery, logs: seq<ImportLog>, page: Option<string>)
    ensures Ordered(q.(page := page), logs) == Ordered(q, logs)
  {
    MatchingIgnoresPage(q, logs, page);
  }

  lemma MatchingIgnoresPage(q: LogQuery, logs: seq<ImportLog>, page: Option<string>)
    ensures Matching(q.(page := page), logs) == Matching(q, logs)
  {
    var q' := q.(page := page);
    assert forall l :: Matches(q', l) == Matches(q, l);
    FilterCongruent(logs, l => Matches(q', l), l => Matches(q, l));
  }

  /** The pages a client reads by sending the page texts `texts` in turn, with the filters and the
      limit unchanged. */
  function LogPagesRead(q: LogQuery, logs: seq<ImportLog>, texts: seq<string>): seq<seq<ImportLog>> {
    seq(|texts|, i requires 0 <= i < |texts| => PageLogs(q.(page := Some(texts[i])), logs))
  }

  /** Reading pages `?page=1` to `?page=pages` in turn lists every selected log exactly once, newest
      first. */
  lemma PagesListEveryLogOnce(q: LogQuery, logs: seq<ImportLog>)
    requires IntParamOr(q.limit, DefaultLimit) > 0
    ensures var pages := Pages(|Matching(q, logs)|, IntParamOr(q.limit, DefaultLimit));
      && pages >= 0
      && Concat(LogPagesRead(q, logs, PageNumbers(pages))) == Ordered(q, logs)
      && multiset(Concat(LogPagesRead(q, logs, PageNumbers(pages)))) == multiset(Matching(q, logs))
  {
    var limit := IntParamOr(q.limit, DefaultLimit);
    var ordered := Ordered(q, logs);
    PagesCoverRows(ordered, limit);
    var texts := PageNumbers(Pages(|ordered|, limit));
    PageNumbersRead(|texts|, DefaultPage);
    LogPagesReadInOrder(q, logs, texts);
  }

  /** Page texts that read as 1, 2, ... in turn give the first pages of the ordered selection. */
  lemma LogPagesReadInOrder(q: LogQuery, logs: seq<ImportLog>, texts: seq<string>)
    requires forall i :: 0 <= i < |texts| ==> IntParamOr(Some(texts[i]), DefaultPage) == i + 1
    ensures LogPagesRead(q, logs, texts) == FirstPages(Ordered(q, logs), IntParamOr(q.limit, DefaultLimit), |texts|)
  {
    LogPagesNumbered(q, logs, texts);
    PagesInOrder(LogPagesRead(q, logs, texts), Ordered(q, logs), IntParamOr(q.limit, DefaultLimit));
  }

  lemma LogPagesNumbered(q: LogQuery, logs: seq<ImportLog>, texts: seq<string>)
    requires forall i :: 0 <= i < |texts| ==> IntParamOr(Some(texts[i]), DefaultPage) == i + 1
    ensures forall i :: 0 <= i < |texts| ==>
      LogPagesRead(q, logs, texts)[i] == PageOf(Ordered(q, logs), i + 1, IntParamOr(q.limit, DefaultLimit))
  {
    forall i | 0 <= i < |texts|
      ensures LogPagesRead(q, logs, texts)[i] == PageOf(Ordered(q, logs), i + 1, IntParamOr(q.limit, DefaultLimit))
    {
      PageLogsOfParam(q, logs, texts[i], i + 1);
    }
  }

  /** A page text that reads as n >= 1 selects page n of the ordered selection. */
  lemma PageLogsOfParam(q: LogQuery, logs: seq<ImportLog>, text: string, n: int)
    requires n >= 1 && IntParamOr(Some(text), DefaultPage) == n
    ensures PageLogs(q.(page := Some(text)), logs) == PageOf(Ordered(q, logs), n, IntParamOr(q.limit, DefaultLimit))
  {
    OrderedIgnoresPage(q, logs, Some(text));
  }

  // ---------------------------------------------------------------- looking up names

  /** The truthy `importedBy` and `targetAgentId` values of the page, each once. */
  function UserIds(logs: seq<ImportLog>): (ids: seq<string>)
    ensures Distinct(ids)
    ensures forall id :: id in ids <==> id != "" && exists l :: l in logs && (l.importedBy == id || l.targetAgentId == Some(id))
  {
    var importers := NonEmptyKeys(logs, ImporterOf);
    var agents := NonEmptyKeys(logs, AgentOf);
    NonEmptyKeysMembers(logs, ImporterOf);
    NonEmptyKeysMembers(logs, AgentOf);
    Dedup(importers + agents)
  }

  function ImporterOf(l: ImportLog): string {
    l.importedBy
  }

  function AgentOf(l: ImportLog): string {
    Coalesce(l.targetAgentId)
  }

  /** A stored team id is truthy when it is present and not 0. */
  function TeamOf(l: ImportLog): int {
    if l.targetTeamId.Some? then l.targetTeamId.value else 0
  }

  /** The truthy `targetTeamId` values of the page, each once. */
  function TeamIds(logs: seq<ImportLog>): (ids: seq<int>)
    ensures Distinct(ids)
    ensures forall id :: id in ids <==> id != 0 && exists l :: l in logs && l.targetTeamId == Some(id)
  {
    var f := Filter(logs, (l: ImportLog) => TeamOf(l) != 0);
    var teams := MapSeq(f, TeamOf);
    forall id ensures id in teams <==> id != 0 && exists l :: l in logs && l.targetTeamId == Some(id) {
      if id in teams {
        var i :| 0 <= i < |teams| && teams[i] == id;
        assert f[i] in f;
      }
      if id != 0 && exists l :: l in logs && l.targetTeamId == Some(id) {
        var l :| l in logs && l.targetTeamId == Some(id);
        assert l in f;
        var i :| 0 <= i < |f| && f[i] == l;
        assert teams[i] == id;
      }
    }
    Dedup(teams)
  }

  /** `usersMap` after `usersData.forEach(u => usersMap.set(...))` over the users whose id is in
      `ids`: the later of two rows with one id wins. */
  function UserDirectory(users: seq<User>, ids: seq<string>): (m: map<string, (string, string)>)
    ensures forall k :: k in m <==> k in ids && exists u :: u in users && u.id == k
    ensures forall k :: k in m ==> exists u :: u in users && u.id == k && m[k] == (u.name, u.email)
  {
    if users == [] then map[]
    else
      var m := UserDirectory(users[..|users| - 1], ids);
      var u := users[|users| - 1];
      assert users == users[..|users| - 1] + [u];
      if u.id in ids then m[u.id := (u.name, u.email)] else m
  }

  /** `teamsMap`, filled the same way from the teams whose id is in `ids`. */
  function TeamDirectory(teams: seq<Team>, ids: seq<int>): (m: map<int, string>)
    ensures forall k :: k in m <==> k in ids && exists t :: t in teams && t.id == k
    ensures forall k :: k in m ==> exists t :: t in teams && t.id == k && m[k] == t.name
  {
    if teams == [] then map[]
    else
      var m := TeamDirectory(teams[..|teams| - 1], ids);
      var t := teams[|teams| - 1];
      assert teams == teams[..|teams| - 1] + [t];
      if t.id in ids then m[t.id := t.name] else m
  }

  /** With user ids unique, the directory holds the one user with that id. */
  lemma UserDirectoryOfKey(users: seq<User>, ids: seq<string>, i: int)
    requires KeysDistinct(users, UserId)
    requires 0 <= i < |users| && users[i].id in ids
    ensures UserDirectory(users, ids)[users[i].id] == (users[i].name, users[i].email)
  {
    var m := UserDirectory(users, ids);
    var u :| u in users && u.id == users[i].id && m[users[i].id] == (u.name, u.email);
    var j :| 0 <= j < |users| && users[j] == u;
    KeyIdentifiesRow(users, UserId, i, j);
  }

  /** With team ids unique, the directory holds the one team with that id. */
  lemma TeamDirectoryOfKey(teams: seq<Team>, ids: seq<int>, i: int)
    requires KeysDistinct(teams, TeamId)
    requires 0 <= i < |teams| && teams[i].id in ids
    ensures TeamDirectory(teams, ids)[teams[i].id] == teams[i].name
  {
    var m := TeamDirectory(teams, ids);
    var t :| t in teams && t.id == teams[i].id && m[teams[i].id] == t.name;
    var j :| 0 <= j < |teams| && teams[j] == t;
    KeyIdentifiesRow(teams, TeamId, i, j);
  }

  /** Fills `usersMap` row by row. */
  method FillUsers(users: seq<User>, ids: seq<string>) returns (m: map<string, (string, string)>)
    ensures m == UserDirectory(users, ids)
  {
    m := map[];
    if |ids| > 0 {
      var i := 0;
      while i < |users|
        invariant 0 <= i <= |users|
        invariant m == UserDirectory(users[..i], ids)
      {
        assert users[..i + 1][..i] == users[..i];
        if users[i].id in ids {
          m := m[users[i].id := (users[i].name, users[i].email)];
        }
        i := i + 1;
      }
      assert users[..|users|] == users;
    } else {
      assert UserDirectory(users, ids) == map[];
    }
  }

  /** Fills `teamsMap` row by row. */
  method FillTeams(teams: seq<Team>, ids: seq<int>) returns (m: map<int, string>)
    ensures m == TeamDirectory(teams, ids)
  {
    m := map[];
    if |ids| > 0 {
      var i := 0;
      while i < |teams|
        invariant 0 <= i <= |teams|
        invariant m == TeamDirectory(teams[..i], ids)
      {
        assert teams[..i + 1][..i] == teams[..i];
        if teams[i].id in ids {
          m := m[teams[i].id := teams[i].name];
        }
        i := i + 1;
      }
      assert teams[..|teams|] == teams;
    } else {
      assert TeamDirectory(teams, ids) == map[];
    }
  }

  // ---------------------------------------------------------------- the answer

  datatype LogEntry = LogEntry(id: int, importedBy: string, importedByEmail: string, projectName: string,
                               targetTeam: string, targetAgent: string, totalRows: JsVal, successCount: JsVal,
                               failedCount: JsVal, createdCount: JsVal, updatedCount: JsVal,
                               assignedCount: JsVal, createdAt: int)

  datatype LogPage = LogPage(data: seq<LogEntry>, total: nat, page: int, limit: int, pages: int)

  /** `usersMap.get(id)?.name || fallback` */
  function NameOr(users: map<string, (string, string)>, id: string, fallback: string): (s: string)
    ensures s == fallback <==> id !in users || users[id].0 == "" || users[id].0 == fallback
    ensures s != fallback ==> s == users[id].0
  {
    if id in users && users[id].0 != "" then users[id].0 else fallback
  }

  /** One row of `data`; a date that does not read back falls back to the time of the request. */
  function Entry(l: ImportLog, users: map<string, (string, string)>, teams: map<int, string>, now: int)
    : (e: LogEntry)
    ensures e.id == l.id
    ensures e.importedBy == NameOr(users, l.importedBy, "Unbekannt")
    ensures e.importedByEmail == if l.importedBy in users then users[l.importedBy].1 else ""
    ensures e.projectName == if l.projectName.Some? && l.projectName.value != "" then l.projectName.value else "-"
    ensures TeamOf(l) == 0 || TeamOf(l) !in teams || teams[TeamOf(l)] == "" ==> e.targetTeam == "-"
    ensures TeamOf(l) != 0 && TeamOf(l) in teams && teams[TeamOf(l)] != "" ==> e.targetTeam == teams[TeamOf(l)]
    ensures e.targetAgent == if AgentOf(l) == "" then "-" else NameOr(users, AgentOf(l), "-")
    ensures e.totalRows == l.totalRows && e.successCount == l.successCount && e.failedCount == l.failedCount
    ensures e.createdCount == l.createdCount && e.updatedCount == l.updatedCount
    ensures e.assignedCount == l.assignedCount
    ensures e.createdAt == if l.createdAt.At? then l.createdAt.ms else now
  {
    LogEntry(l.id, NameOr(users, l.importedBy, "Unbekannt"),
             if l.importedBy in users then users[l.importedBy].1 else "",
             if l.projectName.Some? && l.projectName.value != "" then l.projectName.value else "-",
             if TeamOf(l) != 0 && TeamOf(l) in teams && teams[TeamOf(l)] != "" then teams[TeamOf(l)] else "-",
             if AgentOf(l) == "" then "-" else NameOr(users, AgentOf(l), "-"),
             l.totalRows, l.successCount, l.failedCount, l.createdCount, l.updatedCount, l.assignedCount,
             if l.createdAt.At? then l.createdAt.ms else now)
  }

  /** `data`: one entry per log, with names looked up among the users and teams the page mentions. */
  function Entries(logs: seq<ImportLog>, users: seq<User>, teams: seq<Team>, now: int): (r: seq<LogEntry>)
    ensures |r| == |logs|
    ensures forall k :: 0 <= k < |r| ==> r[k].id == logs[k].id && r[k].totalRows == logs[k].totalRows
  {
    var byId := UserDirectory(users, UserIds(logs));
    var teamNames := TeamDirectory(teams, TeamIds(logs));
    MapSeq(logs, l => Entry(l, byId, teamNames, now))
  }

  /** The answer for a signed-in Admin. */
  function Answer(q: LogQuery, db: Db, now: int): LogPage {
    var limit := IntParamOr(q.limit, DefaultLimit);
    var total := |Matching(q, db.importLogs)|;
    LogPage(Entries(PageLogs(q, db.importLogs), db.users, db.teams, now), total, IntParamOr(q.page, DefaultPage),
            limit, Pages(total, limit))
  }

  /** `GET /api/admin/import-log` */
  method ListImportLogs(session: Option<SessionUser>, q: LogQuery, db: Db, now: int) returns (r: Response<LogPage>)
    ensures session.None? ==> r == Err(NotSignedIn)
    ensures session.Some? && session.value.role != "Admin" ==> r == Err(AdminsOnly)
    ensures r.Ok? <==> session.Some? && session.value.role == "Admin"
    ensures r.Ok? ==> r.value == Answer(q, db, now)
  {
    var gate := RequireAdmin(session);
    if gate.Err? {
      return Err(gate.error);
    }
    var page := IntParamOr(q.page, DefaultPage);
    var limit := IntParamOr(q.limit, DefaultLimit);
    var conds := WhereConditions(q);
    forall l ensures Where(conds, l) <==> Matches(q, l) {
      WhereIsMatches(q, conds, l);
    }
    FilterCongruent(db.importLogs, l => Where(conds, l), l => Matches(q, l));
    var selected := Filter(db.importLogs, l => Where(conds, l));
    var total := |selected|;
    var logs := PageOf(SortBy(selected, NewerFirst), page, limit);
    assert logs == PageLogs(q, db.importLogs);
    var users := FillUsers(db.users, UserIds(logs));
    var teams := FillTeams(db.teams, TeamIds(logs));
    var data := MapSeq(logs, l => Entry(l, users, teams, now));
    assert data == Entries(logs, db.users, db.teams, now);
    return Ok(LogPage(data, total, page, limit, Pages(total, limit)));
  }

  // ---------------------------------------------------------------- what a reader sees

  /** `total` counts every log the query selects and `pages` pages of `limit` hold them all. */
  lemma TotalCountsMatches(q: LogQuery, db: Db, now: int)
    requires IntParamOr(q.limit, DefaultLimit) > 0
    ensures var a := Answer(q, db, now);
      && a.total == |Matching(q, db.importLogs)|
      && a.pages == Pages(a.total, a.limit)
      && |a.data| <= a.limit
      && (NoFilter(q) ==> a.total == |db.importLogs|)
  {
  }

  /** An entry names its importer by the user's name whenever that user exists with a non-empty
      name, and otherwise says "Unbekannt"; the e-mail comes from the same user. */
  lemma EntryNamesImporter(logs: seq<ImportLog>, users: seq<User>, teams: seq<Team>, now: int, k: int, i: int)
    requires KeysDistinct(users, UserId)
    requires 0 <= k < |logs| && 0 <= i < |users|
    requires users[i].id == logs[k].importedBy && users[i].id != ""
    ensures var e := Entries(logs, users, teams, now)[k];
      && e.importedBy == (if users[i].name == "" then "Unbekannt" else users[i].name)
      && e.importedByEmail == users[i].email
  {
    var ids := UserIds(logs);
    assert logs[k] in logs;
    assert users[i].id in ids;
    UserDirectoryOfKey(users, ids, i);
  }

  /** An entry whose log names an existing team with a non-empty name shows that team's name. */
  lemma EntryNamesTeam(logs: seq<ImportLog>, users: seq<User>, teams: seq<Team>, now: int, k: int, i: int)
    requires KeysDistinct(teams, TeamId)
    requires 0 <= k < |logs| && 0 <= i < |teams|
    requires logs[k].targetTeamId == Some(teams[i].id) && teams[i].id != 0 && teams[i].name != ""
    ensures Entries(logs, users, teams, now)[k].targetTeam == teams[i].name
  {
    var ids := TeamIds(logs);
    assert logs[k] in logs;
    assert teams[i].id in ids;
    TeamDirectoryOfKey(teams, ids, i);
  }

  /** A log whose importer is not a known user is shown as imported by "Unbekannt", without e-mail. */
  lemma UnknownImporter(logs: seq<ImportLog>, users: seq<User>, teams: seq<Team>, now: int, k: int)
    requires 0 <= k < |logs|
    requires forall u :: u in users ==> u.id != logs[k].importedBy
    ensures Entries(logs, users, teams, now)[k].importedBy == "Unbekannt"
    ensures Entries(logs, users, teams, now)[k].importedByEmail == ""
  {
  }
}
