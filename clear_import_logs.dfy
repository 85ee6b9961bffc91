/**
 * `GET /api/dev/clear-import-logs`: a development tool that undoes imports. For every import log
 * it looks for the assignments its importer made within ten seconds of the log's timestamp,
 * deletes the companies of those assignments together with everything that hangs off them (in the
 * order activities, tasks, notes, contacts, assignments, companies), and finally empties the
 * import-log table. It reports how many rows of each kind it deleted, counting one per company.
 * Whether the server runs in production is an input of the model.
 */
module ClearImportLogs {
  import opened Js
  import opened Seqs
  import opened Http
  import opened Schema

  const DisabledInProduction := HttpError(403, "This endpoint is disabled in production")

  /** `importStartTime.getTime() + 10000` */
  const WindowMs := 10000

  /** The `deleted` counters of the answer. */
  datatype Deleted = Deleted(importLogs: nat, companies: nat, activities: nat, tasks: nat,
                             conversationNotes: nat, contacts: nat, assignments: nat)

  /** `importStartTime`, when it is a valid date. A NULL column reads back as `null`, and
      `new Date(null)` is the epoch; a TEXT column reads back as an invalid date. */
  function WindowStart(s: Stamp): (start: Option<int>)
    ensures start.None? <==> s.TextStamp?
    ensures s.At? ==> start == Some(s.ms)
    ensures s.NullStamp? ==> start == Some(0)
  {
    match s
    case NullStamp => Some(0)
    case TextStamp(_) => None
    case At(t) => Some(t)
  }

  /** The assignment was made by the log's importer within the log's ten-second window. A log
      whose timestamp does not read back as a date has no window. */
  predicate InWindow(l: ImportLog, a: Assignment) {
    && WindowStart(l.createdAt).Some?
    && WindowStart(l.createdAt).value <= a.assignedAt <= WindowStart(l.createdAt).value + WindowMs
    && a.assignedBy == Some(l.importedBy)
  }

  function CompanyOf(a: Assignment): int { a.companyId }

  /** `[...new Set(relatedAssignments.map(a => a.companyId))]` */
  function RelatedCompanies(assignments: seq<Assignment>, l: ImportLog): (ids: seq<int>)
    ensures Distinct(ids)
    ensures forall id :: id in ids <==> exists a :: a in assignments && InWindow(l, a) && a.companyId == id
  {
    var related := Filter(assignments, (a: Assignment) => InWindow(l, a));
    var all := MapSeq(related, CompanyOf);
    forall id ensures id in all <==> exists a :: a in assignments && InWindow(l, a) && a.companyId == id {
      if id in all {
        var i :| 0 <= i < |all| && all[i] == id;
        assert related[i] in related;
      }
      if exists a :: a in assignments && InWindow(l, a) && a.companyId == id {
        var a :| a in assignments && InWindow(l, a) && a.companyId == id;
        assert a in related;
        var i :| 0 <= i < |related| && related[i] == a;
        assert all[i] == id;
      }
    }
    Dedup(all)
  }

  function Members(xs: seq<int>): set<int> { set x | x in xs }

  predicate KeepTask(ids: set<int>, t: Task) { t.companyId !in ids }

  /** The six deletes of one log, in the handler's order. Deleting the contacts blanks the
      `contactId` of any remaining activity that named one of them. */
  function Purge(db: Db, ids: set<int>): Db {
    var d1 := db.(activities := Filter(db.activities, a => KeepActivity(ids, a)));
    var d2 := d1.(tasks := Filter(d1.tasks, t => KeepTask(ids, t)));
    var d3 := d2.(notes := Filter(d2.notes, n => KeepNote(ids, n)));
    var contacts := Filter(d3.contacts, c => KeepContact(ids, c));
    var d4 := d3.(contacts := contacts, activities := ClearMissingContacts(d3.activities, contacts));
    var d5 := d4.(assignments := Filter(d4.assignments, a => KeepAssignment(ids, a)));
    d5.(companies := Filter(d5.companies, c => KeepCompany(ids, c)))
  }

  /** What the loop does with one log: the companies it reaches are purged and counted. */
  function Step(d: Db, n: nat, l: ImportLog): (Db, nat) {
    var ids := RelatedCompanies(d.assignments, l);
    if |ids| == 0 then (d, n) else (Purge(d, Members(ids)), n + |ids|)
  }

  /** A log whose timestamp does not read back as a date reaches no company. */
  lemma NoTimestampNoCompanies(assignments: seq<Assignment>, l: ImportLog)
    requires l.createdAt.TextStamp?
    ensures RelatedCompanies(assignments, l) == []
  {
    NoMembers(RelatedCompanies(assignments, l));
  }

  /** A log whose date is NULL is not skipped: its window is the first ten seconds after the
      epoch, so it reaches the companies its importer assigned then. */
  lemma NullTimestampFromEpoch(assignments: seq<Assignment>, l: ImportLog, id: int)
    requires l.createdAt.NullStamp?
    ensures id in RelatedCompanies(assignments, l) <==>
      exists a :: a in assignments && 0 <= a.assignedAt <= WindowMs && a.assignedBy == Some(l.importedBy)
                  && a.companyId == id
  {
  }

  lemma StepOf(d: Db, n: nat, l: ImportLog)
    ensures var ids := RelatedCompanies(d.assignments, l);
      Step(d, n, l) == if |ids| == 0 then (d, n) else (Purge(d, Members(ids)), n + |ids|)
  {
  }

  /** The six deletes remove what deleting the companies with the schema's cascades removes, and
      in addition the companies' tasks, which the schema does not link to their company. */
  lemma PurgeIsCascade(db: Db, ids: set<int>)
    ensures Purge(db, ids) == DeleteCompanies(db, ids).(tasks := Filter(db.tasks, t => KeepTask(ids, t)))
  {
  }

  /** The database and the company counter after the loop has handled `logs`. */
  function Sweep(db: Db, logs: seq<ImportLog>): (Db, nat)
    decreases |logs|
  {
    if logs == [] then (db, 0)
    else
      var prev := Sweep(db, logs[..|logs| - 1]);
      Step(prev.0, prev.1, logs[|logs| - 1])
  }

  /** One turn of the loop, as `Sweep` takes it. */
  lemma SweepStep(db: Db, logs: seq<ImportLog>, i: int)
    requires 0 <= i < |logs|
    ensures Sweep(db, logs[..i + 1]) == Step(Sweep(db, logs[..i]).0, Sweep(db, logs[..i]).1, logs[i])
  {
    assert logs[..i + 1][..i] == logs[..i];
  }

  /** The six deletes for the companies `companyIds` of one log, one statement per table. */
  method DeleteRelated(db0: Db, companyIds: seq<int>) returns (db: Db)
    ensures db == Purge(db0, Members(companyIds))
  {
    var ids := Members(companyIds);
    db := db0;
    db := db.(activities := Filter(db.activities, a => KeepActivity(ids, a)));
    db := db.(tasks := Filter(db.tasks, t => KeepTask(ids, t)));
    db := db.(notes := Filter(db.notes, n => KeepNote(ids, n)));
    var contacts := Filter(db.contacts, c => KeepContact(ids, c));
    db := db.(contacts := contacts, activities := ClearMissingContacts(db.activities, contacts));
    db := db.(assignments := Filter(db.assignments, a => KeepAssignment(ids, a)));
    db := db.(companies := Filter(db.companies, c => KeepCompany(ids, c)));
  }

  /** `GET /api/dev/clear-import-logs` */
  method ClearAll(production: bool, db0: Db) returns (r: Response<Deleted>, db: Db)
    ensures production ==> r == Err(DisabledInProduction) && db == db0
    ensures !production ==>
      var (swept, n) := Sweep(db0, db0.importLogs);
      && db == swept.(importLogs := [])
      && r == Ok(Deleted(|db0.importLogs|, n, n, n, n, n, n))
  {
    if production {
      return Err(DisabledInProduction), db0;
    }
    db := db0;
    var allLogs := db.importLogs;
    var deletedCompanies, deletedActivities, deletedTasks, deletedNotes, deletedContacts, deletedAssignments
      := 0, 0, 0, 0, 0, 0;
    var i := 0;
    while i < |allLogs|
      invariant 0 <= i <= |allLogs|
      invariant db == Sweep(db0, allLogs[..i]).0
      invariant deletedCompanies == Sweep(db0, allLogs[..i]).1
      invariant deletedActivities == deletedTasks == deletedNotes == deletedCompanies
      invariant deletedContacts == deletedAssignments == deletedCompanies
    {
      SweepStep(db0, allLogs, i);
      ghost var before, counted := db, deletedCompanies;
      var log := allLogs[i];
      if WindowStart(log.createdAt).None? {
        NoTimestampNoCompanies(db.assignments, log);
        i := i + 1;
        continue;
      }
      var companyIds := RelatedCompanies(db.assignments, log);
      StepOf(db, deletedCompanies, log);
      if |companyIds| > 0 {
        db := DeleteRelated(db, companyIds);
        deletedActivities := deletedActivities + |companyIds|;
        deletedTasks := deletedTasks + |companyIds|;
        deletedNotes := deletedNotes + |companyIds|;
        deletedContacts := deletedContacts + |companyIds|;
        deletedAssignments := deletedAssignments + |companyIds|;
        deletedCompanies := deletedCompanies + |companyIds|;
      }
      assert (db, deletedCompanies) == Step(before, counted, log);
      i := i + 1;
    }
    assert allLogs[..|allLogs|] == allLogs;
    db := db.(importLogs := []);
    r := Ok(Deleted(|allLogs|, deletedCompanies, deletedActivities, deletedTasks, deletedNotes, deletedContacts,
                    deletedAssignments));
  }

  // ---------------------------------------------------------------- what the cleanup guarantees

  /** Purging keeps every constraint and leaves nothing that refers to a purged company. */
  lemma PurgeConsistent(db: Db, ids: set<int>)
    requires Consistent(db)
    ensures Consistent(Purge(db, ids))
    ensures var r := Purge(db, ids);
      && (forall c :: c in r.companies ==> c.id !in ids)
      && (forall n :: n in r.notes ==> n.companyId !in ids)
      && (forall c :: c in r.contacts ==> c.companyId !in ids)
      && (forall a :: a in r.assignments ==> a.companyId !in ids)
      && (forall a :: a in r.activities ==> a.companyId !in ids)
      && (forall t :: t in r.tasks ==> t.companyId !in ids)
  {
    DeleteCompaniesConsistent(db, ids);
  }

  /** The loop keeps every constraint of the schema. */
  lemma {:induction false} SweepConsistent(db: Db, logs: seq<ImportLog>)
    requires Consistent(db)
    ensures Consistent(Sweep(db, logs).0)
    decreases |logs|
  {
    if logs != [] {
      var prev := Sweep(db, logs[..|logs| - 1]);
      SweepConsistent(db, logs[..|logs| - 1]);
      var ids := RelatedCompanies(prev.0.assignments, logs[|logs| - 1]);
      if |ids| > 0 {
        PurgeConsistent(prev.0, Members(ids));
      }
    }
  }

  /** What the loop touches: companies and assignments only disappear, users, teams and logs stay,
      an assignment disappears only together with its company, and every company matched by a
      handled log through an original assignment is gone. */
  lemma {:induction false} SweepEffect(db: Db, logs: seq<ImportLog>)
    ensures var r := Sweep(db, logs).0;
      && r.users == db.users && r.teams == db.teams && r.teamMembers == db.teamMembers
      && r.importLogs == db.importLogs && r.authUsers == db.authUsers
      && (forall c :: c in r.companies ==> c in db.companies)
      && (forall a :: a in r.assignments ==> a in db.assignments)
      && (forall a :: a in db.assignments && a !in r.assignments ==> a.companyId !in CompanyIdsOf(r.companies))
      && (forall l, a :: l in logs && a in db.assignments && InWindow(l, a) ==> a.companyId !in CompanyIdsOf(r.companies))
    decreases |logs|
  {
    if logs != [] {
      var init := logs[..|logs| - 1];
      var last := logs[|logs| - 1];
      SweepEffect(db, init);
      var d := Sweep(db, init).0;
      var ids := RelatedCompanies(d.assignments, last);
      var r := Sweep(db, logs).0;
      assert forall l :: l in logs ==> l in init || l == last;
      if |ids| > 0 {
        var s := Members(ids);
        assert r == Purge(d, s);
        CompanyIdsAfterDelete(d, s);
        assert CompanyIdsOf(r.companies) == CompanyIdsOf(d.companies) - s;
        forall l, a | l in logs && a in db.assignments && InWindow(l, a)
          ensures a.companyId !in CompanyIdsOf(r.companies)
        {
          if l == last && a in d.assignments {
            assert a.companyId in ids;
          }
        }
      }
    }
  }

  /** A company that no log's window reaches through any of its assignments survives the cleanup. */
  lemma {:induction false} UnreachedCompanySurvives(db: Db, logs: seq<ImportLog>, c: Company)
    requires c in db.companies
    requires forall l, a :: l in logs && a in db.assignments && a.companyId == c.id ==> !InWindow(l, a)
    ensures c in Sweep(db, logs).0.companies
    decreases |logs|
  {
    if logs != [] {
      var init := logs[..|logs| - 1];
      var last := logs[|logs| - 1];
      UnreachedCompanySurvives(db, init, c);
      SweepEffect(db, init);
      var d := Sweep(db, init).0;
      var ids := RelatedCompanies(d.assignments, last);
      assert c.id !in ids;
      if |ids| > 0 {
        assert c in Purge(d, Members(ids)).companies;
      }
    }
  }

  /** After the cleanup the import-log table is empty and every company matched by a log is gone,
      with nothing left that refers to it. */
  lemma ClearedDatabase(db0: Db)
    requires Consistent(db0)
    ensures var db := Sweep(db0, db0.importLogs).0.(importLogs := []);
      && db.importLogs == []
      && Consistent(db)
      && (forall l, a :: l in db0.importLogs && a in db0.assignments && InWindow(l, a) ==>
            a.companyId !in CompanyIdsOf(db.companies))
  {
    SweepConsistent(db0, db0.importLogs);
    SweepEffect(db0, db0.importLogs);
  }

  /** Assignments without an assigner, such as the ones the bulk import creates, are never in a
      window: a company whose assignments all lack an assigner survives the cleanup. */
  lemma UnassignedByNobodySurvives(db: Db, c: Company)
    requires c in db.companies
    requires forall a :: a in db.assignments && a.companyId == c.id ==> a.assignedBy.None?
    ensures c in Sweep(db, db.importLogs).0.companies
  {
    UnreachedCompanySurvives(db, db.importLogs, c);
  }

  /** The counters count companies, not rows: a purge that removes a company with two contacts
      still adds 1 to the contact counter. */
  lemma CountersCountCompanies()
    ensures var l := ImportLog(1, "u", None, None, None, JNum(1), JNum(1), JNum(0), JNum(1), JNum(0), JNum(1),
                               At(0));
      var a := Assignment(1, 7, None, None, None, 5, Some("u"));
      var c1 := Contact(1, 7, "A", None, None, None, true, None, None, None, None, None, None, 0);
      var c2 := Contact(2, 7, "B", None, None, None, false, None, None, None, None, None, None, 0);
      var db := Db([], [], [], [], [], [], [c1, c2], [a], [], [], [l]);
      && Sweep(db, [l]).1 == 1
      && Sweep(db, [l]).0.contacts == []
  {
    var l := ImportLog(1, "u", None, None, None, JNum(1), JNum(1), JNum(0), JNum(1), JNum(0), JNum(1), At(0));
    var a := Assignment(1, 7, None, None, None, 5, Some("u"));
    var c1 := Contact(1, 7, "A", None, None, None, true, None, None, None, None, None, None, 0);
    var c2 := Contact(2, 7, "B", None, None, None, false, None, None, None, None, None, None, 0);
    var db := Db([], [], [], [], [], [], [c1, c2], [a], [], [], [l]);
    assert [l][..0] == [];
    var ids := RelatedCompanies(db.assignments, l);
    assert InWindow(l, a);
    assert 7 in ids;
    assert forall i :: 0 <= i < |ids| ==> ids[i] in ids;
    assert ids == [7];
    StepOf(db, 0, l);
    assert Sweep(db, [l]) == Step(db, 0, l);
    assert Members(ids) == {7};
    assert Sweep(db, [l]).0 == Purge(db, {7});
    var contacts := Purge(db, {7}).contacts;
    assert forall c :: c !in contacts;
    NoMembers(contacts);
  }
}
