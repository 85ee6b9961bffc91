/**
 * `POST /api/customers/import-log`: after a batch import the client stores one summary row. Anyone
 * signed in except an Agent may do so; the importer is always the signed-in user, and counts that
 * are missing or falsy are stored as 0. Whether the insert throws is an input of the model.
 */
module ImportLogPost {
  import opened Js
  import opened Http
  import opened Schema

  datatype LogBody = LogBody(targetTeamId: JsVal, targetAgentId: JsVal, projectName: JsVal,
                             totalRows: JsVal, successCount: JsVal, failedCount: JsVal,
                             createdCount: JsVal, updatedCount: JsVal, assignedCount: JsVal)

  const NotSignedIn := HttpError(401, "Nicht autorisiert")
  const AgentRefused := HttpError(403, "Verboten: Agenten können keine Kunden importieren.")
  const SaveFailed := HttpError(500, "Fehler beim Speichern des Import-Logs")

  /** Destructuring a missing or `null` body throws a TypeError outside the handler's `try`; the
      framework answers with 500. */
  const BodyUnreadable := HttpError(500, "Internal Server Error")

  /** `count || 0` */
  function CountOrZero(v: JsVal): (r: JsVal)
    ensures Truthy(v) ==> r == v
    ensures !Truthy(v) ==> r == JNum(0)
  {
    OrElse(v, JNum(0))
  }

  /** `value || undefined` written to a nullable TEXT column: falsy values leave it NULL. */
  function TextOrNull(v: JsVal): (r: Option<string>)
    ensures r.Some? <==> Truthy(v)
    ensures v.JStr? && Truthy(v) ==> r == Some(v.s)
  {
    if Truthy(v) then Some(TextValue(v)) else None
  }

  /** `targetTeamId ? Number(targetTeamId) : undefined`; a value that is not a number is stored as
      NULL. */
  function FinalTeamId(v: JsVal): (r: Option<int>)
    ensures !Truthy(v) ==> r.None?
    ensures v.JNum? && v.n != 0 ==> r == Some(v.n)
    ensures Truthy(v) && ToNumber(v).Some? ==> r == ToNumber(v)
  {
    if Truthy(v) then ToNumber(v) else None
  }

  function LogKey(l: ImportLog): int { l.id }

  /** The row stored for a request by `user`. */
  function LogRecord(id: int, user: SessionUser, body: LogBody, now: int): (l: ImportLog)
    ensures l.id == id && l.importedBy == user.id && l.createdAt == At(now)
    ensures l.projectName == TextOrNull(body.projectName) && l.targetAgentId == TextOrNull(body.targetAgentId)
    ensures l.targetTeamId == FinalTeamId(body.targetTeamId)
    ensures l.totalRows == CountOrZero(body.totalRows) && l.successCount == CountOrZero(body.successCount)
    ensures l.failedCount == CountOrZero(body.failedCount) && l.createdCount == CountOrZero(body.createdCount)
    ensures l.updatedCount == CountOrZero(body.updatedCount) && l.assignedCount == CountOrZero(body.assignedCount)
  {
    ImportLog(id, user.id, TextOrNull(body.projectName), FinalTeamId(body.targetTeamId),
              TextOrNull(body.targetAgentId), CountOrZero(body.totalRows), CountOrZero(body.successCount),
              CountOrZero(body.failedCount), CountOrZero(body.createdCount), CountOrZero(body.updatedCount),
              CountOrZero(body.assignedCount), At(now))
  }

  /** A stored count is never falsy unless it is the number 0. */
  predicate CountStored(v: JsVal) {
    Truthy(v) || v == JNum(0)
  }

  /** `POST /api/customers/import-log`: `Ok(true)` is the `{ success: true }` answer. The body is read
      after the role check; `None` stands for a missing or `null` body. */
  function SaveImportLog(session: Option<SessionUser>, body: Option<LogBody>, db: Db, now: int, insertFails: bool)
    : (r: (Response<bool>, Db))
    ensures session.None? ==> r == (Err(NotSignedIn), db)
    ensures session.Some? && session.value.role == "Agent" ==> r == (Err(AgentRefused), db)
    ensures session.Some? && session.value.role != "Agent" && body.None? ==> r == (Err(BodyUnreadable), db)
    ensures r.0.Err? ==> r.1 == db
    ensures r.0.Ok? <==> session.Some? && session.value.role != "Agent" && body.Some? && !insertFails
    ensures r.0.Ok? ==> r.0.value
    ensures session.Some? && session.value.role != "Agent" && body.Some? && insertFails ==> r.0 == Err(SaveFailed)
    ensures r.0.Ok? ==>
      && |r.1.importLogs| == |db.importLogs| + 1
      && r.1 == db.(importLogs := db.importLogs + [r.1.importLogs[|db.importLogs|]])
      && var l := r.1.importLogs[|db.importLogs|];
      && l.importedBy == session.value.id
      && l == LogRecord(l.id, session.value, body.value, now)
      && l.id !in LogIdsOf(db.importLogs)
  {
    match session
    case None => (Err(NotSignedIn), db)
    case Some(user) =>
      if user.role == "Agent" then (Err(AgentRefused), db)
      else match body
        case None => (Err(BodyUnreadable), db)
        case Some(b) =>
          if insertFails then (Err(SaveFailed), db)
          else
            var l := LogRecord(NextId(db.importLogs, LogKey), user, b, now);
            (Ok(true), db.(importLogs := db.importLogs + [l]))
  }

  /** The importer recorded is the signed-in user whatever the body says, and every count stored
      is either a truthy value from the body or 0. */
  lemma SavedLogTrustsSessionOnly(session: Option<SessionUser>, body: LogBody, body': LogBody, db: Db, now: int)
    requires SaveImportLog(session, Some(body), db, now, false).0.Ok?
    ensures SaveImportLog(session, Some(body'), db, now, false).0.Ok?
    ensures var l := SaveImportLog(session, Some(body), db, now, false).1.importLogs[|db.importLogs|];
      var l' := SaveImportLog(session, Some(body'), db, now, false).1.importLogs[|db.importLogs|];
      && l.importedBy == l'.importedBy == session.value.id
      && l.id == l'.id
      && CountStored(l.totalRows) && CountStored(l.successCount) && CountStored(l.failedCount)
      && CountStored(l.createdCount) && CountStored(l.updatedCount) && CountStored(l.assignedCount)
  {
  }

  /** Roles other than Agent are not checked: an unknown role may store a log. */
  lemma UnknownRoleMaySave(id: string, name: string, body: LogBody, db: Db, now: int)
    ensures SaveImportLog(Some(SessionUser(id, name, "Gast")), Some(body), db, now, false).0 == Ok(true)
  {
  }
}
