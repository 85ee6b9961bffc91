/**
 * `createAutoTask`: when a customer is handed to an agent, a first-contact task is stored for that
 * agent. The record is a fixed template around the company's name; a failing insert is swallowed
 * and reported as `null`. Whether the insert fails is an input of the model.
 */
module AutoTask {
  import opened Js
  import opened Schema

  const TitlePrefix := "Erstkontakt: "
  const AutoStatus := "Nicht angefasst"
  const AutoPriority := "Mittel"
  const AutoDescription := "Automatisch erstellt bei Kundenzuweisung"

  /** The task record the helper builds, stored under `id`. */
  function AutoTaskRecord(id: int, companyId: int, companyName: string, assignedTo: string, assignedBy: string,
                          now: int): (t: Task)
    ensures t.id == id && t.companyId == companyId
    ensures t.title == TitlePrefix + companyName
    ensures t.status == AutoStatus && t.priority == AutoPriority && t.description == Some(AutoDescription)
    ensures t.assignedTo == Some(assignedTo) && t.assignedBy == Some(assignedBy)
    ensures t.dueDate.None? && t.followUpDate.None? && t.completedAt.None?
    ensures t.createdAt == now && t.updatedAt == Some(now)
  {
    Task(id, TitlePrefix + companyName, companyId, AutoStatus, AutoPriority, None, None, Some(assignedTo),
         Some(assignedBy), Some(AutoDescription), None, now, Some(now))
  }

  /** The company name can be read back from the title. */
  lemma TitleNamesCompany(id: int, companyId: int, companyName: string, assignedTo: string, assignedBy: string,
                          now: int)
    ensures var t := AutoTaskRecord(id, companyId, companyName, assignedTo, assignedBy, now);
      |t.title| == |TitlePrefix| + |companyName|
      && t.title[..|TitlePrefix|] == TitlePrefix
      && t.title[|TitlePrefix|..] == companyName
  {
  }

  function TaskKey(t: Task): int { t.id }

  /** `createAutoTask(db, companyId, companyName, assignedTo, assignedBy)`: the stored task, or
      `None` (and an unchanged database) when the insert throws. */
  function CreateAutoTask(db: Db, companyId: int, companyName: string, assignedTo: string, assignedBy: string,
                          now: int, insertFails: bool): (r: (Db, Option<Task>))
    ensures insertFails <==> r.1.None?
    ensures insertFails ==> r.0 == db
    ensures !insertFails ==>
      && r.0 == db.(tasks := db.tasks + [r.1.value])
      && r.1.value.id !in TaskIdsOf(db.tasks)
      && r.1.value == AutoTaskRecord(r.1.value.id, companyId, companyName, assignedTo, assignedBy, now)
  {
    if insertFails then (db, None)
    else
      var t := AutoTaskRecord(NextId(db.tasks, TaskKey), companyId, companyName, assignedTo, assignedBy, now);
      (db.(tasks := db.tasks + [t]), Some(t))
  }

  /** Two tasks created one after the other for different companies are told apart by their
      titles whenever the names differ, and always by their ids. */
  lemma AutoTasksDistinct(db: Db, c1: int, n1: string, c2: int, n2: string, agent: string, lead: string, now: int)
    ensures var (db1, t1) := CreateAutoTask(db, c1, n1, agent, lead, now, false);
      var (db2, t2) := CreateAutoTask(db1, c2, n2, agent, lead, now, false);
      && t1.value.id != t2.value.id
      && (n1 != n2 ==> t1.value.title != t2.value.title)
      && db2.tasks == db.tasks + [t1.value, t2.value]
  {
    var (db1, t1) := CreateAutoTask(db, c1, n1, agent, lead, now, false);
    var (db2, t2) := CreateAutoTask(db1, c2, n2, agent, lead, now, false);
    assert t1.value in db1.tasks;
    if n1 != n2 {
      TitleNamesCompany(t1.value.id, c1, n1, agent, lead, now);
      TitleNamesCompany(t2.value.id, c2, n2, agent, lead, now);
    }
  }
}
