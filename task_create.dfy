/**
 * `POST /api/tasks`: a task is stored from the request body after checking that it names a title
 * and a company. Missing optional fields are filled with defaults; given values are stored as they
 * are. Dates arrive already converted: `dueDate` and `followUpDate` are the parsed timestamps of
 * truthy inputs, `None` for falsy ones.
 */
module TaskCreate {
  import opened Js
  import opened Http
  import opened Schema

  datatype TaskBody = TaskBody(title: JsVal, companyId: JsVal, status: JsVal, priority: JsVal,
                               dueDate: Option<int>, followUpDate: Option<int>, assignedTo: JsVal,
                               assignedBy: JsVal, description: JsVal)

  const MissingFields := HttpError(400, "Title and Company are required")

  /** Task rows hold an integer company id; a truthy company id that is not a number is taken to make
      the insert throw. */
  const InsertFailed := HttpError(500, "Internal Server Error")

  /** Reading `body.title` of a missing or `null` body throws a TypeError, answered with 500. */
  const BodyUnreadable := HttpError(500, "Internal Server Error")

  const DefaultStatus := "Open"
  const DefaultPriority := "Medium"

  /** `value || null` written to a nullable TEXT column. */
  function OrNull(v: JsVal): (r: Option<string>)
    ensures r.Some? <==> Truthy(v)
    ensures v.JStr? && Truthy(v) ==> r == Some(v.s)
  {
    if Truthy(v) then Some(TextValue(v)) else None
  }

  function TaskKey(t: Task): int { t.id }

  /** `POST /api/tasks`: 500 without a body object (`None` for a missing or `null` body), 400 without
      a truthy title and company id; otherwise the inserted row. */
  function CreateTask(body: Option<TaskBody>, db: Db, now: int): (r: (Response<Task>, Db))
    ensures body.None? ==> r == (Err(BodyUnreadable), db)
    ensures body.Some? && (!Truthy(body.value.title) || !Truthy(body.value.companyId)) ==>
      r == (Err(MissingFields), db)
    ensures r.0.Err? ==> r.1 == db
    ensures (body.Some? && Truthy(body.value.title) && Truthy(body.value.companyId)
             && ToNumber(body.value.companyId).None?) ==> r == (Err(InsertFailed), db)
    ensures r.0.Ok? <==>
      body.Some? && Truthy(body.value.title) && Truthy(body.value.companyId) && ToNumber(body.value.companyId).Some?
    ensures r.0.Ok? ==>
      var b, t := body.value, r.0.value;
      && r.1 == db.(tasks := db.tasks + [t])
      && t.id !in TaskIdsOf(db.tasks)
      && t.title == TextValue(b.title)
      && Some(t.companyId) == ToNumber(b.companyId)
      && t.status == (if Truthy(b.status) then TextValue(b.status) else DefaultStatus)
      && t.priority == (if Truthy(b.priority) then TextValue(b.priority) else DefaultPriority)
      && t.dueDate == b.dueDate && t.followUpDate == b.followUpDate
      && t.assignedTo == OrNull(b.assignedTo) && t.assignedBy == OrNull(b.assignedBy)
      && t.description == OrNull(b.description)
      && t.completedAt.None?
  {
    match body
    case None => (Err(BodyUnreadable), db)
    case Some(b) =>
      if !Truthy(b.title) || !Truthy(b.companyId) then (Err(MissingFields), db)
      else match ToNumber(b.companyId)
        case None => (Err(InsertFailed), db)
        case Some(companyId) =>
          var t := Task(NextId(db.tasks, TaskKey), TextValue(b.title), companyId,
                        TextValue(OrElse(b.status, JStr(DefaultStatus))),
                        TextValue(OrElse(b.priority, JStr(DefaultPriority))),
                        b.dueDate, b.followUpDate, OrNull(b.assignedTo), OrNull(b.assignedBy),
                        OrNull(b.description), None, now, None);
          (Ok(t), db.(tasks := db.tasks + [t]))
  }

  /** A status or priority given as text is stored verbatim, never replaced by the default. */
  lemma GivenStatusKept(body: TaskBody, db: Db, now: int)
    requires CreateTask(Some(body), db, now).0.Ok?
    requires body.status.JStr? && body.status.s != "" && body.priority.JStr? && body.priority.s != ""
    ensures CreateTask(Some(body), db, now).0.value.status == body.status.s
    ensures CreateTask(Some(body), db, now).0.value.priority == body.priority.s
  {
  }

  /** The company id 0 is falsy and refused like a missing one. */
  lemma CompanyZeroRefused(body: TaskBody, db: Db, now: int)
    requires Truthy(body.title) && body.companyId == JNum(0)
    ensures CreateTask(Some(body), db, now) == (Err(MissingFields), db)
  {
  }
}
