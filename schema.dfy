/**
 * The tables of the CRM database, their uniqueness and NOT NULL constraints, and what SQLite does to
 * the rows that reference a deleted row (`onDelete: "cascade"` removes them, `onDelete: "set null"`
 * blanks the reference). The database is a value: one sequence of rows per table, in table order.
 *
 * Timestamps are integers (milliseconds); a nullable column is an `Option`.
 */
module Schema {
  import opened Js
  import opened Seqs

  /** `users`: the CRM's own user table. */
  datatype User = User(id: string, email: string, name: string, role: string, avatar: Option<string>,
                       createdAt: int, updatedAt: Option<int>)

  /** `user`: the authentication library's user table, listed by the user administration. */
  datatype AuthUser = AuthUser(id: string, email: string, name: string, role: Option<string>,
                               emailVerified: bool, createdAt: int)

  /** `teams`. The lead column is declared NOT NULL; `None` only arises in the corrected schema, where
      the column is nullable. */
  datatype Team = Team(id: int, name: string, teamleadId: Option<string>, createdAt: int)

  /** `team_members`: which user belongs to which team. */
  datatype TeamMember = TeamMember(id: int, teamId: int, userId: string, createdAt: int)

  datatype Company = Company(
    id: int, name: string, legalForm: Option<string>, industry: Option<string>,
    employeeCount: Option<int>, website: Option<string>, phone: Option<string>,
    email: Option<string>, description: Option<string>, revenueSize: Option<string>,
    openingHours: Option<string>, street: Option<string>, postalCode: Option<string>,
    city: Option<string>, state: Option<string>, foundingDate: Option<string>,
    project: Option<string>, createdAt: int, updatedAt: Option<int>)

  /** `conversation_notes`: at most one per company. */
  datatype ConversationNote = ConversationNote(id: int, companyId: int, conversationHook: Option<string>,
                                               researchResult: Option<string>, updatedBy: Option<string>,
                                               updatedAt: int)

  datatype Contact = Contact(
    id: int, companyId: int, firstName: string, lastName: Option<string>, email: Option<string>,
    phone: Option<string>, isPrimary: bool, position: Option<string>, birthDate: Option<string>,
    linkedin: Option<string>, xing: Option<string>, facebook: Option<string>, notes: Option<string>,
    createdAt: int)

  /** `assignments`: which agent and team a company is assigned to, with a free-text status. */
  datatype Assignment = Assignment(id: int, companyId: int, teamId: Option<int>, agentId: Option<string>,
                                   status: Option<string>, assignedAt: int, assignedBy: Option<string>)

  /** `activities`. The user column is declared NOT NULL; `None` only arises in the corrected schema. */
  datatype Activity = Activity(id: int, companyId: int, contactId: Option<int>, userId: Option<string>,
                               activityType: string, subject: Option<string>, content: Option<string>,
                               startedAt: Option<int>, endedAt: Option<int>, createdAt: int)

  /** `tasks`, with the columns the endpoints read and write. */
  datatype Task = Task(
    id: int, title: string, companyId: int, status: string, priority: string,
    dueDate: Option<int>, followUpDate: Option<int>, assignedTo: Option<string>,
    assignedBy: Option<string>, description: Option<string>, completedAt: Option<int>,
    createdAt: int, updatedAt: Option<int>)

  /** A stored `import_logs.created_at`. The column is an INTEGER timestamp, but it may also hold
      SQL NULL, or a TEXT that does not read back as a date (the column's default
      `CURRENT_TIMESTAMP` writes "YYYY-MM-DD HH:MM:SS"). `At` is an instant in milliseconds. */
  datatype Stamp = NullStamp | TextStamp(text: string) | At(ms: int)

  /** `import_logs`. The counts are stored as they arrive in the request body. */
  datatype ImportLog = ImportLog(
    id: int, importedBy: string, projectName: Option<string>, targetTeamId: Option<int>,
    targetAgentId: Option<string>, totalRows: JsVal, successCount: JsVal, failedCount: JsVal,
    createdCount: JsVal, updatedCount: JsVal, assignedCount: JsVal, createdAt: Stamp)

  datatype Db = Db(
    users: seq<User>, authUsers: seq<AuthUser>, teams: seq<Team>, teamMembers: seq<TeamMember>,
    companies: seq<Company>, notes: seq<ConversationNote>, contacts: seq<Contact>,
    assignments: seq<Assignment>, activities: seq<Activity>, tasks: seq<Task>,
    importLogs: seq<ImportLog>)

  datatype DbError = UniqueViolation(column: string) | NotNullViolation(column: string)
                   | ForeignKeyViolation(column: string)

  // ---------------------------------------------------------------- column values

  /** The text a value is stored as in a TEXT column (a JavaScript boolean is bound as 1 or 0). */
  function TextValue(v: JsVal): string {
    match v
    case JStr(s) => s
    case JNum(n) => IntToString(n)
    case JBool(b) => if b then "1" else "0"
    case _ => ""
  }

  /** A value written to a nullable TEXT column: `undefined` leaves the column NULL, as does `null`. */
  function TextColumn(v: JsVal): (r: Option<string>)
    ensures r.None? <==> v == JUndefined || v == JNull
    ensures v.JStr? ==> r == Some(v.s)
  {
    if v == JUndefined || v == JNull then None else Some(TextValue(v))
  }

  /** The next `AUTOINCREMENT` id: larger than every id in the table. */
  function NextId<T>(rows: seq<T>, id: T -> int): (r: int)
    ensures r >= 1
    ensures forall i :: 0 <= i < |rows| ==> id(rows[i]) < r
  {
    if rows == [] then 1
    else
      var rest := NextId(rows[1..], id);
      assert forall i :: 1 <= i < |rows| ==> rows[i] == rows[1..][i - 1];
      if id(rows[0]) < rest then rest else id(rows[0]) + 1
  }

  // ---------------------------------------------------------------- constraints

  function UserIdsOf(users: seq<User>): set<string> { set u | u in users :: u.id }
  function TeamIdsOf(teams: seq<Team>): set<int> { set t | t in teams :: t.id }
  function CompanyIdsOf(companies: seq<Company>): set<int> { set c | c in companies :: c.id }
  function ContactIdsOf(contacts: seq<Contact>): set<int> { set c | c in contacts :: c.id }
  function TaskIdsOf(tasks: seq<Task>): set<int> { set t | t in tasks :: t.id }
  function LogIdsOf(logs: seq<ImportLog>): set<int> { set l | l in logs :: l.id }

  /** No two rows of `rows` share a key. */
  predicate KeysDistinct<T, K(==)>(rows: seq<T>, key: T -> K) {
    forall i, j :: 0 <= i < j < |rows| ==> key(rows[i]) != key(rows[j])
  }

  /** Rows with distinct keys: equal keys mean the same row. */
  lemma KeyIdentifiesRow<T, K>(rows: seq<T>, key: T -> K, i: int, j: int)
    requires KeysDistinct(rows, key)
    requires 0 <= i < |rows| && 0 <= j < |rows| && key(rows[i]) == key(rows[j])
    ensures i == j
  {
  }

  function UserId(u: User): string { u.id }
  function TeamId(t: Team): int { t.id }
  function MemberKey(m: TeamMember): int { m.id }
  function CompanyKey(c: Company): int { c.id }
  function NoteKey(n: ConversationNote): int { n.id }
  function ContactKey(c: Contact): int { c.id }
  function AssignmentKey(a: Assignment): int { a.id }
  function ActivityKey(a: Activity): int { a.id }
  function UserEmail(u: User): string { u.email }
  function TeamName(t: Team): string { t.name }
  function Membership(m: TeamMember): (int, string) { (m.teamId, m.userId) }
  function NoteCompany(n: ConversationNote): int { n.companyId }

  /** The primary keys: the text `users.id` and the integer `id` of every other table of the schema. */
  predicate PrimaryKeys(db: Db) {
    && KeysDistinct(db.users, UserId)
    && KeysDistinct(db.teams, TeamId)
    && KeysDistinct(db.teamMembers, MemberKey)
    && KeysDistinct(db.companies, CompanyKey)
    && KeysDistinct(db.notes, NoteKey)
    && KeysDistinct(db.contacts, ContactKey)
    && KeysDistinct(db.assignments, AssignmentKey)
    && KeysDistinct(db.activities, ActivityKey)
  }

  /** The primary keys, and the UNIQUE columns `users.email`, `teams.name`,
      `(team_members.teamId, team_members.userId)` and `conversation_notes.companyId`. */
  predicate Unique(db: Db) {
    && PrimaryKeys(db)
    && KeysDistinct(db.users, UserEmail)
    && KeysDistinct(db.teams, TeamName)
    && KeysDistinct(db.teamMembers, Membership)
    && KeysDistinct(db.notes, NoteCompany)
  }

  /** The two NOT NULL columns that also carry `onDelete: "set null"`. */
  predicate NotNull(db: Db) {
    && (forall t :: t in db.teams ==> t.teamleadId.Some?)
    && (forall a :: a in db.activities ==> a.userId.Some?)
  }

  predicate RefersToUser(ref: Option<string>, users: seq<User>) {
    ref.Some? ==> ref.value in UserIdsOf(users)
  }

  predicate TeamRefs(db: Db) {
    forall t :: t in db.teams ==> RefersToUser(t.teamleadId, db.users)
  }

  predicate MemberRefs(db: Db) {
    forall m :: m in db.teamMembers ==> m.teamId in TeamIdsOf(db.teams) && m.userId in UserIdsOf(db.users)
  }

  predicate NoteRefs(db: Db) {
    forall n :: n in db.notes ==> n.companyId in CompanyIdsOf(db.companies) && RefersToUser(n.updatedBy, db.users)
  }

  predicate ContactRefs(db: Db) {
    forall c :: c in db.contacts ==> c.companyId in CompanyIdsOf(db.companies)
  }

  predicate AssignmentRefs(db: Db) {
    forall a :: a in db.assignments ==>
      && a.companyId in CompanyIdsOf(db.companies)
      && (a.teamId.Some? ==> a.teamId.value in TeamIdsOf(db.teams))
      && RefersToUser(a.agentId, db.users)
      && RefersToUser(a.assignedBy, db.users)
  }

  predicate ActivityRefs(db: Db) {
    forall a :: a in db.activities ==>
      && a.companyId in CompanyIdsOf(db.companies)
      && (a.contactId.Some? ==> a.contactId.value in ContactIdsOf(db.contacts))
      && RefersToUser(a.userId, db.users)
  }

  /** Every reference that is not NULL names an existing row. */
  predicate ForeignKeys(db: Db) {
    TeamRefs(db) && MemberRefs(db) && NoteRefs(db) && ContactRefs(db) && AssignmentRefs(db) && ActivityRefs(db)
  }

  /** Every constraint the schema declares. */
  predicate Consistent(db: Db) {
    Unique(db) && NotNull(db) && ForeignKeys(db)
  }

  /** Appending a row whose key is new keeps the keys distinct. */
  lemma AppendKeepsKeysDistinct<T, K>(rows: seq<T>, row: T, key: T -> K)
    requires KeysDistinct(rows, key)
    requires forall i :: 0 <= i < |rows| ==> key(rows[i]) != key(row)
    ensures KeysDistinct(rows + [row], key)
  {
    var all := rows + [row];
    forall i, j | 0 <= i < j < |all| ensures key(all[i]) != key(all[j]) {
      assert all[i] == rows[i];
    }
  }

  /** A filter keeps distinct keys distinct. */
  lemma {:induction false} FilterKeepsKeysDistinct<T(!new), K>(rows: seq<T>, p: T -> bool, key: T -> K)
    requires KeysDistinct(rows, key)
    ensures KeysDistinct(Filter(rows, p), key)
  {
    if rows != [] {
      var tail := rows[1..];
      assert KeysDistinct(tail, key) by {
        forall i, j | 0 <= i < j < |tail| ensures key(tail[i]) != key(tail[j]) {
          assert tail[i] == rows[i + 1] && tail[j] == rows[j + 1];
        }
      }
      FilterKeepsKeysDistinct(tail, p, key);
      var rest := Filter(tail, p);
      if p(rows[0]) {
        forall i | 0 <= i < |rest| ensures key(rest[i]) != key(rows[0]) {
          assert rest[i] in tail;
          var k :| 0 <= k < |tail| && tail[k] == rest[i];
          assert tail[k] == rows[k + 1];
        }
        var all := [rows[0]] + rest;
        assert Filter(rows, p) == all;
        forall i, j | 0 <= i < j < |all| ensures key(all[i]) != key(all[j]) {
          if i > 0 {
            assert all[i] == rest[i - 1];
          }
          assert all[j] == rest[j - 1];
        }
      } else {
        assert Filter(rows, p) == rest;
      }
    }
  }

  // ---------------------------------------------------------------- guarded inserts

  /** Inserting a user: rejected when the id or the email is taken. */
  function InsertUser(db: Db, u: User): (r: Result<Db, DbError>)
    ensures r.Err? <==>
      (exists i :: 0 <= i < |db.users| && db.users[i].id == u.id)
      || (exists i :: 0 <= i < |db.users| && db.users[i].email == u.email)
    ensures r.Ok? ==> r.value == db.(users := db.users + [u])
  {
    if exists i :: 0 <= i < |db.users| && db.users[i].id == u.id then Err(UniqueViolation("users.id"))
    else if exists i :: 0 <= i < |db.users| && db.users[i].email == u.email then Err(UniqueViolation("users.email"))
    else Ok(db.(users := db.users + [u]))
  }

  /** Inserting a team: rejected when the name is taken or the lead is not a user. */
  function InsertTeam(db: Db, name: string, teamleadId: string, now: int): (r: Result<Db, DbError>)
    ensures r.Err? <==> (exists i :: 0 <= i < |db.teams| && db.teams[i].name == name) || teamleadId !in UserIdsOf(db.users)
    ensures r.Ok? ==> |r.value.teams| == |db.teams| + 1 && r.value.teams[..|db.teams|] == db.teams
    ensures r.Ok? ==> var t := r.value.teams[|db.teams|];
      && t.name == name && t.teamleadId == Some(teamleadId) && t.id !in TeamIdsOf(db.teams)
    ensures r.Ok? ==> r.value == db.(teams := r.value.teams)
  {
    if exists i :: 0 <= i < |db.teams| && db.teams[i].name == name then Err(UniqueViolation("teams.name"))
    else if teamleadId !in UserIdsOf(db.users) then Err(ForeignKeyViolation("teams.teamlead_id"))
    else Ok(db.(teams := db.teams + [Team(NextId(db.teams, (t: Team) => t.id), name, Some(teamleadId), now)]))
  }

  /** Adding a user to a team: rejected when the pair is already there or either side is missing. */
  function InsertTeamMember(db: Db, teamId: int, userId: string, now: int): (r: Result<Db, DbError>)
    ensures r.Err? <==>
      (exists i :: 0 <= i < |db.teamMembers| && Membership(db.teamMembers[i]) == (teamId, userId))
      || teamId !in TeamIdsOf(db.teams) || userId !in UserIdsOf(db.users)
    ensures r.Ok? ==> |r.value.teamMembers| == |db.teamMembers| + 1
    ensures r.Ok? ==> r.value.teamMembers[..|db.teamMembers|] == db.teamMembers
    ensures r.Ok? ==> var m := r.value.teamMembers[|db.teamMembers|];
      Membership(m) == (teamId, userId) && forall i :: 0 <= i < |db.teamMembers| ==> db.teamMembers[i].id != m.id
    ensures r.Ok? ==> r.value == db.(teamMembers := r.value.teamMembers)
  {
    if exists i :: 0 <= i < |db.teamMembers| && Membership(db.teamMembers[i]) == (teamId, userId) then
      Err(UniqueViolation("team_members.team_user_unique"))
    else if teamId !in TeamIdsOf(db.teams) || userId !in UserIdsOf(db.users) then
      Err(ForeignKeyViolation("team_members"))
    else
      Ok(db.(teamMembers := db.teamMembers +
        [TeamMember(NextId(db.teamMembers, (m: TeamMember) => m.id), teamId, userId, now)]))
  }

  /** Inserting a conversation note: rejected when the company already has one or does not exist. */
  function InsertNote(db: Db, companyId: int, hook: Option<string>, research: Option<string>, now: int)
    : (r: Result<Db, DbError>)
    ensures r.Err? <==>
      (exists i :: 0 <= i < |db.notes| && db.notes[i].companyId == companyId) || companyId !in CompanyIdsOf(db.companies)
    ensures r.Ok? ==> |r.value.notes| == |db.notes| + 1 && r.value.notes[..|db.notes|] == db.notes
    ensures r.Ok? ==> var n := r.value.notes[|db.notes|];
      && n.companyId == companyId && n.conversationHook == hook && n.researchResult == research && n.updatedBy.None?
      && forall i :: 0 <= i < |db.notes| ==> db.notes[i].id != n.id
    ensures r.Ok? ==> r.value == db.(notes := r.value.notes)
  {
    if exists i :: 0 <= i < |db.notes| && db.notes[i].companyId == companyId then
      Err(UniqueViolation("conversation_notes.company_id"))
    else if companyId !in CompanyIdsOf(db.companies) then Err(ForeignKeyViolation("conversation_notes.company_id"))
    else Ok(db.(notes := db.notes +
      [ConversationNote(NextId(db.notes, (n: ConversationNote) => n.id), companyId, hook, research, None, now)]))
  }

  /** Inserting a contact: `firstName` is NOT NULL and `isPrimary` defaults to false. */
  function InsertContact(db: Db, companyId: int, firstName: Option<string>, isPrimary: Option<bool>, now: int)
    : (r: Result<Db, DbError>)
    ensures firstName.None? ==> r == Err(NotNullViolation("contacts.first_name"))
    ensures r.Err? <==> firstName.None? || companyId !in CompanyIdsOf(db.companies)
    ensures r.Ok? ==> |r.value.contacts| == |db.contacts| + 1 && r.value.contacts[..|db.contacts|] == db.contacts
    ensures r.Ok? ==> var c := r.value.contacts[|db.contacts|];
      && c.companyId == companyId
      && c.firstName == firstName.value
      && c.isPrimary == (isPrimary == Some(true))
      && forall i :: 0 <= i < |db.contacts| ==> db.contacts[i].id != c.id
    ensures r.Ok? ==> r.value == db.(contacts := r.value.contacts)
  {
    if firstName.None? then Err(NotNullViolation("contacts.first_name"))
    else if companyId !in CompanyIdsOf(db.companies) then Err(ForeignKeyViolation("contacts.company_id"))
    else
      var primary := if isPrimary.Some? then isPrimary.value else false;
      var c := Contact(NextId(db.contacts, (c: Contact) => c.id), companyId, firstName.value, None, None, None,
                       primary, None, None, None, None, None, None, now);
      Ok(db.(contacts := db.contacts + [c]))
  }

  /** Each accepted insert keeps the primary keys and the UNIQUE constraints. */
  lemma InsertsKeepUnique(db: Db, u: User, name: string, lead: string, teamId: int, userId: string,
                          companyId: int, firstName: Option<string>, now: int)
    requires Unique(db)
    ensures InsertUser(db, u).Ok? ==> Unique(InsertUser(db, u).value)
    ensures InsertTeam(db, name, lead, now).Ok? ==> Unique(InsertTeam(db, name, lead, now).value)
    ensures InsertTeamMember(db, teamId, userId, now).Ok? ==> Unique(InsertTeamMember(db, teamId, userId, now).value)
    ensures InsertNote(db, companyId, None, None, now).Ok? ==> Unique(InsertNote(db, companyId, None, None, now).value)
    ensures InsertContact(db, companyId, firstName, None, now).Ok? ==>
      Unique(InsertContact(db, companyId, firstName, None, now).value)
  {
    if InsertUser(db, u).Ok? {
      InsertUserKeepsUnique(db, u);
    }
    if InsertTeam(db, name, lead, now).Ok? {
      InsertTeamKeepsUnique(db, name, lead, now);
    }
    if InsertTeamMember(db, teamId, userId, now).Ok? {
      InsertTeamMemberKeepsUnique(db, teamId, userId, now);
    }
    if InsertNote(db, companyId, None, None, now).Ok? {
      InsertNoteKeepsUnique(db, companyId, now);
    }
    if InsertContact(db, companyId, firstName, None, now).Ok? {
      InsertContactKeepsUnique(db, companyId, firstName, now);
    }
  }

  lemma InsertUserKeepsUnique(db: Db, u: User)
    requires Unique(db) && InsertUser(db, u).Ok?
    ensures Unique(InsertUser(db, u).value)
  {
    AppendKeepsKeysDistinct(db.users, u, UserId);
    AppendKeepsKeysDistinct(db.users, u, UserEmail);
  }

  lemma InsertTeamKeepsUnique(db: Db, name: string, lead: string, now: int)
    requires Unique(db) && InsertTeam(db, name, lead, now).Ok?
    ensures Unique(InsertTeam(db, name, lead, now).value)
  {
    var r := InsertTeam(db, name, lead, now).value;
    var t := r.teams[|db.teams|];
    assert r.teams == db.teams + [t];
    forall i | 0 <= i < |db.teams| ensures TeamId(db.teams[i]) != TeamId(t) {
      assert db.teams[i] in db.teams;
    }
    AppendKeepsKeysDistinct(db.teams, t, TeamId);
    AppendKeepsKeysDistinct(db.teams, t, TeamName);
  }

  lemma InsertTeamMemberKeepsUnique(db: Db, teamId: int, userId: string, now: int)
    requires Unique(db) && InsertTeamMember(db, teamId, userId, now).Ok?
    ensures Unique(InsertTeamMember(db, teamId, userId, now).value)
  {
    var r := InsertTeamMember(db, teamId, userId, now).value;
    var m := r.teamMembers[|db.teamMembers|];
    assert r.teamMembers == db.teamMembers + [m];
    AppendKeepsKeysDistinct(db.teamMembers, m, MemberKey);
    AppendKeepsKeysDistinct(db.teamMembers, m, Membership);
  }

  lemma InsertNoteKeepsUnique(db: Db, companyId: int, now: int)
    requires Unique(db) && InsertNote(db, companyId, None, None, now).Ok?
    ensures Unique(InsertNote(db, companyId, None, None, now).value)
  {
    var r := InsertNote(db, companyId, None, None, now).value;
    var n := r.notes[|db.notes|];
    assert r.notes == db.notes + [n];
    AppendKeepsKeysDistinct(db.notes, n, NoteKey);
    AppendKeepsKeysDistinct(db.notes, n, NoteCompany);
  }

  lemma InsertContactKeepsUnique(db: Db, companyId: int, firstName: Option<string>, now: int)
    requires Unique(db) && InsertContact(db, companyId, firstName, None, now).Ok?
    ensures Unique(InsertContact(db, companyId, firstName, None, now).value)
  {
    var r := InsertContact(db, companyId, firstName, None, now).value;
    var c := r.contacts[|db.contacts|];
    assert r.contacts == db.contacts + [c];
    AppendKeepsKeysDistinct(db.contacts, c, ContactKey);
  }

  // ---------------------------------------------------------------- referential actions

  predicate KeepCompany(ids: set<int>, c: Company) { c.id !in ids }
  predicate KeepNote(ids: set<int>, n: ConversationNote) { n.companyId !in ids }
  predicate KeepContact(ids: set<int>, c: Contact) { c.companyId !in ids }
  predicate KeepAssignment(ids: set<int>, a: Assignment) { a.companyId !in ids }
  predicate KeepActivity(ids: set<int>, a: Activity) { a.companyId !in ids }

  /** `onDelete: "set null"` on `activities.contactId`: a reference to a contact that is gone becomes NULL. */
  function ClearMissingContacts(activities: seq<Activity>, contacts: seq<Contact>): (r: seq<Activity>)
    ensures |r| == |activities|
    ensures forall i :: 0 <= i < |r| ==>
      && r[i] == activities[i].(contactId := r[i].contactId)
      && (r[i].contactId.Some? <==>
            activities[i].contactId.Some? && activities[i].contactId.value in ContactIdsOf(contacts))
      && (r[i].contactId.Some? ==> r[i].contactId == activities[i].contactId)
  {
    MapSeq(activities, (a: Activity) =>
      if a.contactId.Some? && a.contactId.value !in ContactIdsOf(contacts) then a.(contactId := None) else a)
  }

  /** `DELETE FROM companies WHERE id IN ids`, with the referential actions: notes, contacts,
      assignments and activities of those companies go too, and activities of other companies that
      name one of the deleted contacts lose that reference. Tasks are not touched here. */
  function DeleteCompanies(db: Db, ids: set<int>): (r: Db)
    ensures r.users == db.users && r.teams == db.teams && r.teamMembers == db.teamMembers
    ensures r.tasks == db.tasks && r.importLogs == db.importLogs && r.authUsers == db.authUsers
    ensures forall c :: c in r.companies <==> c in db.companies && c.id !in ids
    ensures forall n :: n in r.notes <==> n in db.notes && n.companyId !in ids
    ensures forall c :: c in r.contacts <==> c in db.contacts && c.companyId !in ids
    ensures forall a :: a in r.assignments <==> a in db.assignments && a.companyId !in ids
    ensures r.activities == ClearMissingContacts(Filter(db.activities, a => KeepActivity(ids, a)), r.contacts)
  {
    var contacts := Filter(db.contacts, c => KeepContact(ids, c));
    db.(companies := Filter(db.companies, c => KeepCompany(ids, c)),
        notes := Filter(db.notes, n => KeepNote(ids, n)),
        contacts := contacts,
        assignments := Filter(db.assignments, a => KeepAssignment(ids, a)),
        activities := ClearMissingContacts(Filter(db.activities, a => KeepActivity(ids, a)), contacts))
  }

  lemma CompanyIdsAfterDelete(db: Db, ids: set<int>)
    ensures CompanyIdsOf(DeleteCompanies(db, ids).companies) == CompanyIdsOf(db.companies) - ids
  {
    var r := DeleteCompanies(db, ids);
    forall x | x in CompanyIdsOf(db.companies) - ids ensures x in CompanyIdsOf(r.companies) {
      var c :| c in db.companies && c.id == x;
      assert c in r.companies;
    }
  }

  /** Deleting companies keeps every constraint, and afterwards no row refers to a deleted company. */
  lemma DeleteCompaniesConsistent(db: Db, ids: set<int>)
    requires Consistent(db)
    ensures Consistent(DeleteCompanies(db, ids))
    ensures var r := DeleteCompanies(db, ids);
      && (forall c :: c in r.companies ==> c.id !in ids)
      && (forall n :: n in r.notes ==> n.companyId !in ids)
      && (forall c :: c in r.contacts ==> c.companyId !in ids)
      && (forall a :: a in r.assignments ==> a.companyId !in ids)
      && (forall a :: a in r.activities ==> a.companyId !in ids)
  {
    var r := DeleteCompanies(db, ids);
    CompanyIdsAfterDelete(db, ids);
    DeleteCompaniesKeepsPrimaryKeys(db, ids);
    FilterKeepsKeysDistinct(db.notes, n => KeepNote(ids, n), NoteCompany);
    var acts := Filter(db.activities, a => KeepActivity(ids, a));
    forall a | a in r.activities
      ensures a.companyId !in ids && a.companyId in CompanyIdsOf(r.companies)
      ensures a.contactId.Some? ==> a.contactId.value in ContactIdsOf(r.contacts)
      ensures a.userId.Some? && RefersToUser(a.userId, r.users)
    {
      var i :| 0 <= i < |r.activities| && r.activities[i] == a;
      assert acts[i] in acts;
    }
  }

  lemma DeleteCompaniesKeepsPrimaryKeys(db: Db, ids: set<int>)
    requires PrimaryKeys(db)
    ensures PrimaryKeys(DeleteCompanies(db, ids))
  {
    var r := DeleteCompanies(db, ids);
    FilterKeepsKeysDistinct(db.companies, c => KeepCompany(ids, c), CompanyKey);
    FilterKeepsKeysDistinct(db.notes, n => KeepNote(ids, n), NoteKey);
    FilterKeepsKeysDistinct(db.contacts, c => KeepContact(ids, c), ContactKey);
    FilterKeepsKeysDistinct(db.assignments, a => KeepAssignment(ids, a), AssignmentKey);
    var acts := Filter(db.activities, a => KeepActivity(ids, a));
    FilterKeepsKeysDistinct(db.activities, a => KeepActivity(ids, a), ActivityKey);
    ClearMissingContactsKeepsKeys(acts, r.contacts);
  }

  lemma ClearMissingContactsKeepsKeys(activities: seq<Activity>, contacts: seq<Contact>)
    requires KeysDistinct(activities, ActivityKey)
    ensures KeysDistinct(ClearMissingContacts(activities, contacts), ActivityKey)
  {
    var r := ClearMissingContacts(activities, contacts);
    forall i, j | 0 <= i < j < |r| ensures ActivityKey(r[i]) != ActivityKey(r[j]) {
      assert ActivityKey(r[i]) == ActivityKey(activities[i]) && ActivityKey(r[j]) == ActivityKey(activities[j]);
    }
  }

  /** `DELETE FROM teams WHERE id = teamId`: the team's memberships go, its assignments lose the team. */
  function DeleteTeam(db: Db, teamId: int): (r: Db)
    ensures r == db.(teams := r.teams, teamMembers := r.teamMembers, assignments := r.assignments)
    ensures forall t :: t in r.teams <==> t in db.teams && t.id != teamId
    ensures forall m :: m in r.teamMembers <==> m in db.teamMembers && m.teamId != teamId
    ensures |r.assignments| == |db.assignments|
    ensures forall i :: 0 <= i < |r.assignments| ==>
      r.assignments[i] == db.assignments[i].(teamId := if db.assignments[i].teamId == Some(teamId) then None else db.assignments[i].teamId)
  {
    db.(teams := Filter(db.teams, (t: Team) => t.id != teamId),
        teamMembers := Filter(db.teamMembers, (m: TeamMember) => m.teamId != teamId),
        assignments := MapSeq(db.assignments, (a: Assignment) =>
          a.(teamId := if a.teamId == Some(teamId) then None else a.teamId)))
  }

  /** Deleting a team keeps every constraint, and nothing refers to the team afterwards. */
  lemma DeleteTeamConsistent(db: Db, teamId: int)
    requires Consistent(db)
    ensures Consistent(DeleteTeam(db, teamId))
    ensures forall m :: m in DeleteTeam(db, teamId).teamMembers ==> m.teamId != teamId
    ensures forall a :: a in DeleteTeam(db, teamId).assignments ==> a.teamId != Some(teamId)
  {
    var r := DeleteTeam(db, teamId);
    DeleteTeamTeamIds(db, teamId);
    FilterKeepsKeysDistinct(db.teams, (t: Team) => t.id != teamId, TeamName);
    FilterKeepsKeysDistinct(db.teamMembers, (m: TeamMember) => m.teamId != teamId, Membership);
    DeleteTeamAssignmentRefs(db, teamId);
  }

  lemma DeleteTeamTeamIds(db: Db, teamId: int)
    ensures TeamIdsOf(DeleteTeam(db, teamId).teams) == TeamIdsOf(db.teams) - {teamId}
  {
    var r := DeleteTeam(db, teamId);
    forall x | x in TeamIdsOf(db.teams) - {teamId} ensures x in TeamIdsOf(r.teams) {
      var t :| t in db.teams && t.id == x;
      assert t in r.teams;
    }
  }

  lemma DeleteTeamAssignmentRefs(db: Db, teamId: int)
    requires AssignmentRefs(db)
    requires TeamIdsOf(DeleteTeam(db, teamId).teams) == TeamIdsOf(db.teams) - {teamId}
    ensures AssignmentRefs(DeleteTeam(db, teamId))
    ensures forall a :: a in DeleteTeam(db, teamId).assignments ==> a.teamId != Some(teamId)
  {
    var r := DeleteTeam(db, teamId);
    forall a | a in r.assignments
      ensures a.teamId != Some(teamId) && a.companyId in CompanyIdsOf(r.companies)
      ensures a.teamId.Some? ==> a.teamId.value in TeamIdsOf(r.teams)
      ensures RefersToUser(a.agentId, r.users) && RefersToUser(a.assignedBy, r.users)
    {
      var i :| 0 <= i < |r.assignments| && r.assignments[i] == a;
      assert db.assignments[i] in db.assignments;
    }
  }

  /** `DELETE FROM users WHERE id = userId` with the schema as declared. Memberships cascade and the
      nullable references are blanked; but `teams.teamleadId` and `activities.userId` are NOT NULL
      and also `onDelete: "set null"`, so SQLite aborts the statement when the user leads a team or
      has an activity. */
  function DeleteUser(db: Db, userId: string): (r: Result<Db, DbError>)
    ensures r.Err? <==>
      (exists t :: t in db.teams && t.teamleadId == Some(userId))
      || (exists a :: a in db.activities && a.userId == Some(userId))
    ensures r.Ok? ==> r.value == DeleteUserNullable(db, userId)
  {
    if exists t :: t in db.teams && t.teamleadId == Some(userId) then Err(NotNullViolation("teams.teamlead_id"))
    else if exists a :: a in db.activities && a.userId == Some(userId) then Err(NotNullViolation("activities.user_id"))
    else Ok(DeleteUserNullable(db, userId))
  }

  function Unset(ref: Option<string>, userId: string): (r: Option<string>)
    ensures r != Some(userId)
    ensures r.Some? ==> r == ref
  {
    if ref == Some(userId) then None else ref
  }

  /** The user delete as the `onDelete: "set null"` actions intend it, with the lead and author
      columns nullable: every reference to the user becomes NULL and the memberships go. */
  function DeleteUserNullable(db: Db, userId: string): (r: Db)
    ensures forall u :: u in r.users <==> u in db.users && u.id != userId
    ensures forall m :: m in r.teamMembers <==> m in db.teamMembers && m.userId != userId
    ensures |r.teams| == |db.teams| && |r.assignments| == |db.assignments|
    ensures |r.notes| == |db.notes| && |r.activities| == |db.activities|
    ensures r.companies == db.companies && r.contacts == db.contacts && r.tasks == db.tasks
    ensures r.importLogs == db.importLogs && r.authUsers == db.authUsers
    ensures forall i :: 0 <= i < |r.teams| ==>
      r.teams[i] == db.teams[i].(teamleadId := Unset(db.teams[i].teamleadId, userId))
    ensures forall i :: 0 <= i < |r.assignments| ==>
      (r.assignments[i] == db.assignments[i].(agentId := Unset(db.assignments[i].agentId, userId),
                                              assignedBy := Unset(db.assignments[i].assignedBy, userId)))
    ensures forall i :: 0 <= i < |r.notes| ==>
      r.notes[i] == db.notes[i].(updatedBy := Unset(db.notes[i].updatedBy, userId))
    ensures forall i :: 0 <= i < |r.activities| ==>
      r.activities[i] == db.activities[i].(userId := Unset(db.activities[i].userId, userId))
  {
    db.(users := Filter(db.users, (u: User) => u.id != userId),
        teamMembers := Filter(db.teamMembers, (m: TeamMember) => m.userId != userId),
        teams := MapSeq(db.teams, (t: Team) => t.(teamleadId := Unset(t.teamleadId, userId))),
        assignments := MapSeq(db.assignments, (a: Assignment) =>
          a.(agentId := Unset(a.agentId, userId), assignedBy := Unset(a.assignedBy, userId))),
        notes := MapSeq(db.notes, (n: ConversationNote) => n.(updatedBy := Unset(n.updatedBy, userId))),
        activities := MapSeq(db.activities, (a: Activity) => a.(userId := Unset(a.userId, userId))))
  }

  /** As declared, a team lead can never be deleted: the statement fails on `teams.teamleadId`. */
  lemma DeleteTeamleadFails(db: Db, i: nat)
    requires i < |db.teams| && db.teams[i].teamleadId.Some?
    ensures DeleteUser(db, db.teams[i].teamleadId.value).Err?
  {
    assert db.teams[i] in db.teams;
  }

  /** An example: one user leading one team. Deleting that user fails as declared and succeeds with
      the lead column nullable, leaving a team without a lead. */
  lemma DeleteTeamleadExample()
    ensures var u := User("u1", "lead@example.com", "Lead", "Teamlead", None, 0, None);
      var db := Db([u], [], [Team(1, "Sales", Some("u1"), 0)], [], [], [], [], [], [], [], []);
      && Consistent(db)
      && DeleteUser(db, "u1") == Err(NotNullViolation("teams.teamlead_id"))
      && DeleteUserNullable(db, "u1").teams == [Team(1, "Sales", None, 0)]
  {
    var u := User("u1", "lead@example.com", "Lead", "Teamlead", None, 0, None);
    var db := Db([u], [], [Team(1, "Sales", Some("u1"), 0)], [], [], [], [], [], [], [], []);
    assert "u1" in UserIdsOf(db.users) by { assert u in db.users; }
    assert db.teams[0] in db.teams;
  }

  /** With nullable lead and author columns, deleting any user keeps every reference valid and
      uniqueness intact, and leaves no reference to the deleted user. */
  lemma DeleteUserNullableKeepsReferences(db: Db, userId: string)
    requires Unique(db) && ForeignKeys(db)
    ensures var r := DeleteUserNullable(db, userId);
      && Unique(r) && ForeignKeys(r)
      && (forall t :: t in r.teams ==> t.teamleadId != Some(userId))
      && (forall a :: a in r.activities ==> a.userId != Some(userId))
      && (forall a :: a in r.assignments ==> a.agentId != Some(userId) && a.assignedBy != Some(userId))
      && (forall n :: n in r.notes ==> n.updatedBy != Some(userId))
  {
    NullableDeleteUnique(db, userId);
    NullableDeleteTeamAndNoteRefs(db, userId);
    NullableDeleteAssignmentRefs(db, userId);
    NullableDeleteActivityRefs(db, userId);
    UserIdsAfterDelete(db, userId);
    TeamIdsAfterUserDelete(db, userId);
  }

  lemma NullableDeleteUnique(db: Db, userId: string)
    requires Unique(db)
    ensures Unique(DeleteUserNullable(db, userId))
  {
    var r := DeleteUserNullable(db, userId);
    FilterKeepsKeysDistinct(db.users, (u: User) => u.id != userId, UserEmail);
    FilterKeepsKeysDistinct(db.teamMembers, (m: TeamMember) => m.userId != userId, Membership);
    assert KeysDistinct(r.teams, TeamName) by {
      forall i, j | 0 <= i < j < |r.teams| ensures TeamName(r.teams[i]) != TeamName(r.teams[j]) {
        assert TeamName(r.teams[i]) == TeamName(db.teams[i]);
      }
    }
    assert KeysDistinct(r.notes, NoteCompany) by {
      forall i, j | 0 <= i < j < |r.notes| ensures NoteCompany(r.notes[i]) != NoteCompany(r.notes[j]) {
        assert NoteCompany(r.notes[i]) == NoteCompany(db.notes[i]);
      }
    }
  }

  lemma NullableDeleteTeamAndNoteRefs(db: Db, userId: string)
    requires TeamRefs(db) && NoteRefs(db)
    ensures var r := DeleteUserNullable(db, userId);
      && TeamRefs(r) && NoteRefs(r)
      && (forall t :: t in r.teams ==> t.teamleadId != Some(userId))
      && (forall n :: n in r.notes ==> n.updatedBy != Some(userId))
  {
    var r := DeleteUserNullable(db, userId);
    UserIdsAfterDelete(db, userId);
    forall t | t in r.teams ensures RefersToUser(t.teamleadId, r.users) && t.teamleadId != Some(userId) {
      var i :| 0 <= i < |r.teams| && r.teams[i] == t;
      assert db.teams[i] in db.teams;
    }
    forall n | n in r.notes
      ensures n.companyId in CompanyIdsOf(r.companies) && RefersToUser(n.updatedBy, r.users)
      ensures n.updatedBy != Some(userId)
    {
      var i :| 0 <= i < |r.notes| && r.notes[i] == n;
      assert db.notes[i] in db.notes;
    }
  }

  lemma NullableDeleteAssignmentRefs(db: Db, userId: string)
    requires AssignmentRefs(db)
    ensures var r := DeleteUserNullable(db, userId);
      && AssignmentRefs(r)
      && (forall a :: a in r.assignments ==> a.agentId != Some(userId) && a.assignedBy != Some(userId))
  {
    var r := DeleteUserNullable(db, userId);
    UserIdsAfterDelete(db, userId);
    TeamIdsAfterUserDelete(db, userId);
    forall a | a in r.assignments
      ensures a.companyId in CompanyIdsOf(r.companies) && (a.teamId.Some? ==> a.teamId.value in TeamIdsOf(r.teams))
      ensures RefersToUser(a.agentId, r.users) && RefersToUser(a.assignedBy, r.users)
      ensures a.agentId != Some(userId) && a.assignedBy != Some(userId)
    {
      var i :| 0 <= i < |r.assignments| && r.assignments[i] == a;
      assert db.assignments[i] in db.assignments;
    }
  }

  lemma NullableDeleteActivityRefs(db: Db, userId: string)
    requires ActivityRefs(db)
    ensures var r := DeleteUserNullable(db, userId);
      && ActivityRefs(r)
      && (forall a :: a in r.activities ==> a.userId != Some(userId))
  {
    var r := DeleteUserNullable(db, userId);
    UserIdsAfterDelete(db, userId);
    forall a | a in r.activities
      ensures a.companyId in CompanyIdsOf(r.companies)
      ensures a.contactId.Some? ==> a.contactId.value in ContactIdsOf(r.contacts)
      ensures RefersToUser(a.userId, r.users) && a.userId != Some(userId)
    {
      var i :| 0 <= i < |r.activities| && r.activities[i] == a;
      assert db.activities[i] in db.activities;
    }
  }

  lemma UserIdsAfterDelete(db: Db, userId: string)
    ensures UserIdsOf(DeleteUserNullable(db, userId).users) == UserIdsOf(db.users) - {userId}
  {
    var r := DeleteUserNullable(db, userId);
    forall x | x in UserIdsOf(db.users) - {userId} ensures x in UserIdsOf(r.users) {
      var u :| u in db.users && u.id == x;
      assert u in r.users;
    }
  }

  lemma TeamIdsAfterUserDelete(db: Db, userId: string)
    ensures TeamIdsOf(DeleteUserNullable(db, userId).teams) == TeamIdsOf(db.teams)
  {
    var r := DeleteUserNullable(db, userId);
    forall x | x in TeamIdsOf(db.teams) ensures x in TeamIdsOf(r.teams) {
      var t :| t in db.teams && t.id == x;
      var i :| 0 <= i < |db.teams| && db.teams[i] == t;
      assert r.teams[i] in r.teams;
    }
    forall x | x in TeamIdsOf(r.teams) ensures x in TeamIdsOf(db.teams) {
      var t :| t in r.teams && t.id == x;
      var i :| 0 <= i < |r.teams| && r.teams[i] == t;
      assert db.teams[i] in db.teams;
    }
  }
}
