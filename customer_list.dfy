/**
 * `GET /api/customers`: the CRM's main customer list. Every company is turned into one customer
 * entry, newest company first, together with its contacts (primary ones first), its conversation
 * note, its latest assignment (which gives the status, agent and team) and its tasks (earliest due
 * date first). Missing text becomes "", missing references become `null`. The endpoint checks no
 * session and applies no role scoping.
 */
module CustomerList {
  import opened Js
  import opened Seqs
  import opened Sorting
  import opened Schema

  /** The status shown for a company that was never assigned. */
  const UnassignedStatus := "Hinzugefügt Am"

  datatype ContactView = ContactView(id: int, isPrimary: bool, firstName: string, lastName: string,
                                     email: string, phoneNumber: string, position: string, birthDate: string,
                                     linkedin: string, xing: string, facebook: string, notizen: string)

  datatype TaskView = TaskView(id: int, title: string, status: string, priority: string, dueDate: Option<int>,
                               followUpDate: Option<int>, assignedToName: Option<string>,
                               assignedById: Option<string>, assignedByName: Option<string>,
                               assignedToId: Option<string>, description: string, completedAt: Option<int>,
                               createdAt: int)

  datatype Customer = Customer(
    id: int, companyName: string, project: string, status: string, assignedAgentId: Option<string>,
    assignedAgentName: Option<string>, assignedTeamId: Option<int>, companyForm: string, industry: string,
    employeeCount: string, website: string, phoneNumber: string, email: string, openingHours: string,
    revenueSize: string, streetAddress: string, postalCode: string, city: string, state: string,
    foundingDate: string, description: string, conversationHook: string, researchResult: string,
    contacts: seq<ContactView>, tasks: seq<TaskView>)

  /** `value || ""` for a nullable TEXT column. */
  function Text(o: Option<string>): string {
    if o.Some? then o.value else ""
  }

  /** `value || null` for a nullable TEXT column. */
  function TextOrNull(o: Option<string>): Option<string> {
    if o.Some? && o.value != "" then o else None
  }

  // ---------------------------------------------------------------- the orderings

  /** `orderBy: desc(companies.createdAt)` */
  predicate NewerCompany(a: Company, b: Company) { IntDesc(a.createdAt, b.createdAt) }

  /** `orderBy: desc(contacts.isPrimary)`: true sorts before false. */
  predicate PrimaryFirst(a: Contact, b: Contact) { a.isPrimary || !b.isPrimary }

  /** `orderBy: asc(tasks.dueDate)`: tasks without a due date first, then by date. */
  predicate EarlierDue(a: Task, b: Task) { NullableAsc(a.dueDate, b.dueDate) }

  /** `orderBy: desc(assignments.assignedAt)` */
  predicate LaterAssigned(a: Assignment, b: Assignment) { IntDesc(a.assignedAt, b.assignedAt) }

  lemma Orderings()
    ensures TotalPreorder(NewerCompany) && TotalPreorder(PrimaryFirst)
    ensures TotalPreorder(EarlierDue) && TotalPreorder(LaterAssigned)
  {
  }

  /** The companies in the order of the list. */
  function CompanyOrder(db: Db): (r: seq<Company>)
    ensures SortedBy(r, NewerCompany)
    ensures multiset(r) == multiset(db.companies)
  {
    Orderings();
    SortByFacts(db.companies, NewerCompany);
    SortBy(db.companies, NewerCompany)
  }

  /** The contacts of company `id`, primary ones first. */
  function ContactsOf(db: Db, id: int): (r: seq<Contact>)
    ensures SortedBy(r, PrimaryFirst)
    ensures multiset(r) == multiset(Filter(db.contacts, (c: Contact) => c.companyId == id))
    ensures forall c :: c in r <==> c in db.contacts && c.companyId == id
  {
    Orderings();
    SortByFacts(Filter(db.contacts, (c: Contact) => c.companyId == id), PrimaryFirst);
    SortBy(Filter(db.contacts, (c: Contact) => c.companyId == id), PrimaryFirst)
  }

  /** The tasks of company `id`, earliest due date first. */
  function TasksOf(db: Db, id: int): (r: seq<Task>)
    ensures SortedBy(r, EarlierDue)
    ensures multiset(r) == multiset(Filter(db.tasks, (t: Task) => t.companyId == id))
    ensures forall t :: t in r <==> t in db.tasks && t.companyId == id
  {
    Orderings();
    SortByFacts(Filter(db.tasks, (t: Task) => t.companyId == id), EarlierDue);
    SortBy(Filter(db.tasks, (t: Task) => t.companyId == id), EarlierDue)
  }

  /** `assignments: { orderBy: desc(assignedAt), limit: 1 }`: the company's latest assignment. */
  function LatestAssignment(db: Db, id: int): (r: Option<Assignment>)
    ensures r.None? <==> forall a :: a in db.assignments ==> a.companyId != id
    ensures r.Some? ==> r.value in db.assignments && r.value.companyId == id
    ensures r.Some? ==> forall a :: a in db.assignments && a.companyId == id ==> a.assignedAt <= r.value.assignedAt
  {
    var own := Filter(db.assignments, (a: Assignment) => a.companyId == id);
    Orderings();
    SortByFacts(own, LaterAssigned);
    var sorted := SortBy(own, LaterAssigned);
    if sorted == [] then
      None
    else
      assert sorted[0] in sorted;
      SortedHeadIsLatest(sorted);
      Some(sorted[0])
  }

  /** The head of a list sorted latest first is at least as late as every element. */
  lemma SortedHeadIsLatest(sorted: seq<Assignment>)
    requires sorted != [] && SortedBy(sorted, LaterAssigned)
    ensures forall a :: a in sorted ==> a.assignedAt <= sorted[0].assignedAt
  {
    forall a | a in sorted ensures a.assignedAt <= sorted[0].assignedAt {
      var j :| 0 <= j < |sorted| && sorted[j] == a;
      if j > 0 {
        assert LaterAssigned(sorted[0], sorted[j]);
      }
    }
  }

  /** `conversationNotes`: the company's note, if it has one. */
  function NoteOf(notes: seq<ConversationNote>, id: int): (r: Option<ConversationNote>)
    ensures r.None? <==> forall n :: n in notes ==> n.companyId != id
    ensures r.Some? ==> r.value in notes && r.value.companyId == id
  {
    if notes == [] then None
    else if notes[0].companyId == id then Some(notes[0])
    else NoteOf(notes[1..], id)
  }

  /** The `name` of the user a relation points at, `|| null`. */
  function NameOf(users: seq<User>, id: Option<string>): (r: Option<string>)
    ensures r.Some? ==> id.Some? && r.value != "" && exists u :: u in users && u.id == id.value && u.name == r.value
    ensures id.None? || (forall u :: u in users ==> u.id != id.value) ==> r.None?
  {
    if id.None? || users == [] then None
    else if users[0].id == id.value then (if users[0].name != "" then Some(users[0].name) else None)
    else NameOf(users[1..], id)
  }

  // ---------------------------------------------------------------- one entry

  function ContactEntry(c: Contact): ContactView {
    ContactView(c.id, c.isPrimary, c.firstName, Text(c.lastName), Text(c.email), Text(c.phone), Text(c.position),
                Text(c.birthDate), Text(c.linkedin), Text(c.xing), Text(c.facebook), Text(c.notes))
  }

  function TaskEntry(users: seq<User>, t: Task): TaskView {
    TaskView(t.id, t.title, t.status, t.priority, t.dueDate, t.followUpDate, NameOf(users, t.assignedTo),
             TextOrNull(t.assignedBy), NameOf(users, t.assignedBy), TextOrNull(t.assignedTo), Text(t.description),
             t.completedAt, t.createdAt)
  }

  lemma ContactsOfCount(db: Db, id: int)
    ensures |ContactsOf(db, id)| == Count(db.contacts, (x: Contact) => x.companyId == id)
  {
    var contacts := ContactsOf(db, id);
    assert |contacts| == |multiset(contacts)|;
  }

  /** `company.contacts.map(...)`: one view per contact of the company, primary ones first. */
  function ContactViews(db: Db, id: int): (r: seq<ContactView>)
    ensures |r| == Count(db.contacts, (x: Contact) => x.companyId == id)
    ensures forall j, k :: 0 <= j < k < |r| ==> r[j].isPrimary || !r[k].isPrimary
    ensures |r| == |ContactsOf(db, id)| && forall k :: 0 <= k < |r| ==> r[k] == ContactEntry(ContactsOf(db, id)[k])
  {
    var contacts := ContactsOf(db, id);
    ContactsOfCount(db, id);
    assert forall j, k :: 0 <= j < k < |contacts| ==> PrimaryFirst(contacts[j], contacts[k]);
    MapSeq(contacts, ContactEntry)
  }

  lemma TasksOfCount(db: Db, id: int)
    ensures |TasksOf(db, id)| == Count(db.tasks, (t: Task) => t.companyId == id)
  {
    var tasks := TasksOf(db, id);
    assert |tasks| == |multiset(tasks)|;
  }

  /** `company.tasks.map(...)`: one view per task of the company, earliest due date first. */
  function TaskViews(db: Db, id: int): (r: seq<TaskView>)
    ensures |r| == Count(db.tasks, (t: Task) => t.companyId == id)
    ensures forall j, k :: 0 <= j < k < |r| ==> NullableAsc(r[j].dueDate, r[k].dueDate)
    ensures |r| == |TasksOf(db, id)| && forall k :: 0 <= k < |r| ==> r[k] == TaskEntry(db.users, TasksOf(db, id)[k])
  {
    var tasks := TasksOf(db, id);
    TasksOfCount(db, id);
    assert forall j, k :: 0 <= j < k < |tasks| ==> EarlierDue(tasks[j], tasks[k]);
    MapSeq(tasks, t => TaskEntry(db.users, t))
  }

  /** `assignment?.status || "Hinzugefügt Am"` */
  function StatusOf(a: Option<Assignment>): (s: string)
    ensures s != ""
    ensures a.None? ==> s == UnassignedStatus
  {
    if a.Some? && a.value.status.Some? && a.value.status.value != "" then a.value.status.value else UnassignedStatus
  }

  /** `company.employeeCount?.toString() || "0"` */
  function EmployeeText(n: Option<int>): (s: string)
    ensures s != ""
    ensures n.None? ==> s == "0"
  {
    if n.Some? then IntToString(n.value) else "0"
  }

  /** The entry for company `c`. */
  function CustomerOf(db: Db, c: Company): (r: Customer)
    ensures r.id == c.id && r.companyName == c.name
    ensures r.status == StatusOf(LatestAssignment(db, c.id))
    ensures LatestAssignment(db, c.id).None? ==>
      r.assignedAgentId.None? && r.assignedAgentName.None? && r.assignedTeamId.None?
    ensures LatestAssignment(db, c.id).Some? ==>
      r.assignedAgentId == TextOrNull(LatestAssignment(db, c.id).value.agentId)
    ensures |r.contacts| == Count(db.contacts, (x: Contact) => x.companyId == c.id)
    ensures |r.tasks| == Count(db.tasks, (t: Task) => t.companyId == c.id)
    ensures forall j, k :: 0 <= j < k < |r.contacts| ==> r.contacts[j].isPrimary || !r.contacts[k].isPrimary
    ensures forall j, k :: 0 <= j < k < |r.tasks| ==> NullableAsc(r.tasks[j].dueDate, r.tasks[k].dueDate)
    ensures r.employeeCount == EmployeeText(c.employeeCount)
    ensures LatestAssignment(db, c.id).Some? ==>
      var a := LatestAssignment(db, c.id).value;
      && r.assignedAgentName == NameOf(db.users, a.agentId)
      && r.assignedTeamId == (if a.teamId.Some? && a.teamId.value != 0 then a.teamId else None)
    ensures && r.project == Text(c.project) && r.companyForm == Text(c.legalForm) && r.industry == Text(c.industry)
            && r.website == Text(c.website) && r.phoneNumber == Text(c.phone) && r.email == Text(c.email)
            && r.openingHours == Text(c.openingHours) && r.revenueSize == Text(c.revenueSize)
            && r.streetAddress == Text(c.street) && r.postalCode == Text(c.postalCode) && r.city == Text(c.city)
            && r.state == Text(c.state) && r.foundingDate == Text(c.foundingDate)
            && r.description == Text(c.description)
    ensures NoteOf(db.notes, c.id).None? ==> r.conversationHook == "" && r.researchResult == ""
    ensures NoteOf(db.notes, c.id).Some? ==>
      && r.conversationHook == Text(NoteOf(db.notes, c.id).value.conversationHook)
      && r.researchResult == Text(NoteOf(db.notes, c.id).value.researchResult)
    ensures r.contacts == ContactViews(db, c.id) && r.tasks == TaskViews(db, c.id)
  {
    var latest := LatestAssignment(db, c.id);
    var note := NoteOf(db.notes, c.id);
    Customer(
      c.id, c.name, Text(c.project), StatusOf(latest),
      if latest.Some? then TextOrNull(latest.value.agentId) else None,
      if latest.Some? then NameOf(db.users, latest.value.agentId) else None,
      if latest.Some? && latest.value.teamId.Some? && latest.value.teamId.value != 0 then latest.value.teamId else None,
      Text(c.legalForm), Text(c.industry), EmployeeText(c.employeeCount), Text(c.website), Text(c.phone),
      Text(c.email), Text(c.openingHours), Text(c.revenueSize), Text(c.street), Text(c.postalCode), Text(c.city),
      Text(c.state), Text(c.foundingDate), Text(c.description),
      if note.Some? then Text(note.value.conversationHook) else "",
      if note.Some? then Text(note.value.researchResult) else "",
      ContactViews(db, c.id), TaskViews(db, c.id))
  }

  /** `GET /api/customers` */
  function Customers(db: Db): (r: seq<Customer>)
    ensures |r| == |db.companies|
    ensures forall i :: 0 <= i < |r| ==> r[i] == CustomerOf(db, CompanyOrder(db)[i])
  {
    var order := CompanyOrder(db);
    assert |order| == |multiset(order)|;
    MapSeq(order, c => CustomerOf(db, c))
  }

  // ---------------------------------------------------------------- what the list promises

  /** Every company appears in the list, and entries come newest company first. */
  lemma EveryCompanyListed(db: Db)
    ensures forall c :: c in db.companies ==> exists i :: 0 <= i < |Customers(db)| && Customers(db)[i].id == c.id
    ensures forall i, j :: 0 <= i < j < |Customers(db)| ==>
      CompanyOrder(db)[i].createdAt >= CompanyOrder(db)[j].createdAt
  {
    var order := CompanyOrder(db);
    var r := Customers(db);
    forall c | c in db.companies ensures exists i :: 0 <= i < |r| && r[i].id == c.id {
      var i := CompanyPosition(db, c);
      assert r[i] == CustomerOf(db, order[i]);
    }
    CompanyOrderNewestFirst(db);
  }

  /** Where a company stands in the newest-first order. */
  lemma CompanyPosition(db: Db, c: Company) returns (i: int)
    requires c in db.companies
    ensures 0 <= i < |CompanyOrder(db)| && CompanyOrder(db)[i] == c
  {
    var order := CompanyOrder(db);
    assert c in multiset(order);
    i :| 0 <= i < |order| && order[i] == c;
  }

  lemma CompanyOrderNewestFirst(db: Db)
    ensures forall i, j :: 0 <= i < j < |CompanyOrder(db)| ==>
      CompanyOrder(db)[i].createdAt >= CompanyOrder(db)[j].createdAt
  {
    var order := CompanyOrder(db);
    forall i, j | 0 <= i < j < |order| ensures order[i].createdAt >= order[j].createdAt {
      assert NewerCompany(order[i], order[j]);
    }
  }

  /** A company never assigned is listed with the default status and without agent or team. */
  lemma UnassignedCompanyShowsDefault(db: Db, c: Company)
    requires forall a :: a in db.assignments ==> a.companyId != c.id
    ensures CustomerOf(db, c).status == UnassignedStatus
    ensures CustomerOf(db, c).assignedAgentId.None? && CustomerOf(db, c).assignedTeamId.None?
  {
  }

  /** With several assignments, the status comes from one with the latest `assignedAt`: an older
      assignment's status is shown only when it ties with the latest. */
  lemma StatusFromLatestAssignment(db: Db, c: Company, a: Assignment)
    requires a in db.assignments && a.companyId == c.id
    ensures var l := LatestAssignment(db, c.id);
      && l.Some? && a.assignedAt <= l.value.assignedAt && l.value.companyId == c.id
      && CustomerOf(db, c).status == StatusOf(l)
  {
  }
}
