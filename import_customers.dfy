/**
 * The customer import (`POST /api/customers/import`): every row of the uploaded sheet becomes a
 * company, an optional primary contact, an empty conversation note and an unassigned assignment with
 * status "Neu Importiert". A row without a company name is counted as failed; a row whose inserts
 * fail part-way is counted as failed and keeps the rows already inserted (there is no transaction).
 *
 * Which insert fails, and with what message, is outside the model: it is an input (`faults`, by row
 * index). A row that is `null` or `undefined` makes the handler throw from inside its own `catch`, so
 * the request ends with a 500 and the rows imported before it stay.
 */
module ImportCustomers {
  import opened Js
  import opened Http
  import opened Schema

  /** One element of the `customers` array: `null`/`undefined`, or an object read by column name. */
  datatype ImportRow = NullRow | Record(fields: map<string, JsVal>)

  /** The request body, when it is an object: `customers` is its `customers` property when that is
      an array, `None` otherwise. The handler receives `None` for a missing or JSON `null` body. */
  datatype ImportBody = ImportBody(customers: Option<seq<ImportRow>>)

  /** The four inserts of a row, in the order they run. */
  datatype Stage = CompanyStage | ContactStage | NoteStage | AssignmentStage

  /** An insert that throws, with the message of the error it throws. */
  datatype Fault = Fault(stage: Stage, message: string)

  /** `results`: the counts and messages the handler answers with. */
  datatype Tally = Tally(success: nat, failed: nat, errors: seq<string>)

  const InvalidBody := HttpError(400, "Invalid data format. Expected an array of customers.")

  /** The framework's answer to an exception the handler does not catch. */
  const Unhandled := HttpError(500, "Internal Server Error")

  const MissingNameMessage := "Missing company name for a row"

  /** The status every imported company starts with. */
  const ImportedStatus := "Neu Importiert"

  // ---------------------------------------------------------------- revenue bands

  /** The bands `mapRevenueToRange` sorts an amount into, lowest first. */
  const Bands: seq<string> := [
    "< 50.000 €", "50.000 € - 100.000 €", "100.000 € - 250.000 €", "250.000 € - 500.000 €",
    "500.000 € - 1 Mio. €", "1 Mio. € - 5 Mio. €", "5 Mio. € - 10 Mio. €", "10 Mio. € - 50 Mio. €",
    "> 50 Mio. €"]

  /** The upper bounds (exclusive) of all bands but the last. */
  const Thresholds: seq<nat> := [50000, 100000, 250000, 500000, 1000000, 5000000, 10000000, 50000000]

  /** The band of an amount: the number of thresholds it reaches. Since the thresholds are whole
      numbers, the whole part of a decimal amount falls in the same band as the amount itself. */
  function BandIndex(amount: nat): (i: nat)
    ensures i < |Bands|
    ensures forall k :: 0 <= k < i ==> Thresholds[k] <= amount
    ensures i < |Thresholds| ==> amount < Thresholds[i]
  {
    if amount < 50000 then 0
    else if amount < 100000 then 1
    else if amount < 250000 then 2
    else if amount < 500000 then 3
    else if amount < 1000000 then 4
    else if amount < 5000000 then 5
    else if amount < 10000000 then 6
    else if amount < 50000000 then 7
    else 8
  }

  /** A larger amount never falls in a lower band. */
  lemma BandIndexMonotone(a: nat, b: nat)
    requires a <= b
    ensures BandIndex(a) <= BandIndex(b)
  {
  }

  predicate IsAmountChar(c: char) { IsDigit(c) || c == '.' }

  /** `s.replace(/[^0-9.]/g, '')` */
  function AmountText(s: string): (r: string)
    ensures |r| <= |s|
    ensures forall i :: 0 <= i < |r| ==> IsAmountChar(r[i])
    ensures (forall i :: 0 <= i < |s| ==> IsAmountChar(s[i])) ==> r == s
  {
    if s == [] then []
    else (if IsAmountChar(s[0]) then [s[0]] else []) + AmountText(s[1..])
  }

  /** The whole part of `parseFloat(t)` for a text of digits and dots (`None` is `NaN`): the leading
      digits, or 0 for a text such as ".5"; no digit before or right after a leading dot is `NaN`. */
  function WholeAmount(t: string): (r: Option<nat>)
    ensures r.None? <==> DigitPrefix(t) == [] && !(|t| >= 2 && t[0] == '.' && IsDigit(t[1]))
    ensures DigitPrefix(t) != [] ==> r == Some(DigitsValue(DigitPrefix(t)))
  {
    var ds := DigitPrefix(t);
    if ds != [] then Some(DigitsValue(ds))
    else if |t| >= 2 && t[0] == '.' && IsDigit(t[1]) then Some(0)
    else None
  }

  predicate LooksLikeRange(v: JsVal) {
    v.JStr? && '-' in v.s
  }

  /** `mapRevenueToRange(revenue)` */
  function RevenueBand(v: JsVal): (r: string)
    ensures !Truthy(v) ==> r == ""
    ensures Truthy(v) && LooksLikeRange(v) ==> r == v.s
    ensures Truthy(v) && !LooksLikeRange(v) ==>
      match WholeAmount(AmountText(JsToString(v)))
      case None => r == JsToString(v)
      case Some(n) => r == Bands[BandIndex(n)]
  {
    if !Truthy(v) then ""
    else if LooksLikeRange(v) then v.s
    else match WholeAmount(AmountText(JsToString(v)))
      case None => JsToString(v)
      case Some(n) => Bands[BandIndex(n)]
  }

  /** A plain number lands in the band its value belongs to. */
  lemma RevenueBandOfNumber(n: nat)
    requires n != 0
    ensures RevenueBand(JNum(n)) == Bands[BandIndex(n)]
  {
    var s := NatToString(n);
    assert JsToString(JNum(n)) == s;
    assert AmountText(s) == s;
    DigitPrefixOfDigits(s);
    DigitsValueOfNatToString(n);
  }

  /** A figure written with German thousands separators is read as a small decimal: "1.500.000"
      is 1.5 to `parseFloat`, so one and a half million euros lands in the lowest band. */
  lemma GermanThousandsSeparatorsReadAsDecimal()
    ensures RevenueBand(JStr("1.500.000")) == "< 50.000 €"
  {
    SeparatedFigureText();
    SeparatedFigureAmount();
  }

  lemma SeparatedFigureText()
    ensures !LooksLikeRange(JStr("1.500.000")) && AmountText("1.500.000") == "1.500.000"
  {
    var s := "1.500.000";
    assert forall i :: 0 <= i < |s| ==> s[i] != '-' && IsAmountChar(s[i]);
  }

  lemma SeparatedFigureAmount()
    ensures WholeAmount("1.500.000") == Some(1)
  {
    var s := "1.500.000";
    assert DigitPrefix(s) == "1" by {
      assert DigitPrefix(s[1..]) == [];
    }
    assert DigitsValue("1") == 1 by {
      assert "1"[..0] == [];
    }
  }

  // ---------------------------------------------------------------- one row

  /** `customerData.Firma || customerData.name || customerData.companyName` is truthy. */
  predicate HasCompanyName(f: map<string, JsVal>) {
    Truthy(Field(f, "Firma")) || Truthy(Field(f, "name")) || Truthy(Field(f, "companyName"))
  }

  /** `row[a] || row[b]` */
  function Pick2(f: map<string, JsVal>, a: string, b: string): (r: JsVal)
    ensures Truthy(r) <==> Truthy(Field(f, a)) || Truthy(Field(f, b))
    ensures r == (if Truthy(Field(f, a)) then Field(f, a) else Field(f, b))
  {
    OrElse(Field(f, a), Field(f, b))
  }

  /** `row[a] || row[b] || row[c]` */
  function Pick3(f: map<string, JsVal>, a: string, b: string, c: string): (r: JsVal)
    ensures Truthy(r) <==> Truthy(Field(f, a)) || Truthy(Field(f, b)) || Truthy(Field(f, c))
    ensures Truthy(Field(f, a)) ==> r == Field(f, a)
    ensures !Truthy(Field(f, a)) ==> r == Pick2(f, b, c)
  {
    OrElse(OrElse(Field(f, a), Field(f, b)), Field(f, c))
  }

  function CompanyName(f: map<string, JsVal>): JsVal {
    Pick3(f, "Firma", "name", "companyName")
  }

  /** The row names a contact person. */
  predicate HasContact(f: map<string, JsVal>) {
    Truthy(Field(f, "Vorname")) || Truthy(Field(f, "firstName")) || Truthy(Field(f, "Ansprechpartner"))
  }

  /** `parseInt(customerData.Mitarbeiter || customerData.employeeCount) || 0` */
  function EmployeeCount(f: map<string, JsVal>): (r: int)
    ensures ParseInt(Pick2(f, "Mitarbeiter", "employeeCount")).None? ==> r == 0
    ensures ParseInt(Pick2(f, "Mitarbeiter", "employeeCount")).Some? ==>
      r == ParseInt(Pick2(f, "Mitarbeiter", "employeeCount")).value
  {
    match ParseInt(Pick2(f, "Mitarbeiter", "employeeCount"))
    case None => 0
    case Some(n) => n
  }

  /** The company a row describes: each column takes the first truthy of its German and English
      spellings; a column no spelling fills is left NULL, except the head count (0) and the revenue
      band (""). */
  function NewCompany(f: map<string, JsVal>, id: int, now: int): (c: Company)
    requires HasCompanyName(f)
    ensures c.id == id && c.createdAt == now && c.updatedAt.None?
    ensures c.name == TextValue(CompanyName(f)) && c.name == TextValue(Pick3(f, "Firma", "name", "companyName"))
    ensures Truthy(Field(f, "Firma")) ==> c.name == TextValue(Field(f, "Firma"))
    ensures c.employeeCount == Some(EmployeeCount(f))
    ensures c.revenueSize == Some(RevenueBand(Pick2(f, "Umsatz", "revenueSize")))
    ensures c.city == TextColumn(Pick3(f, "Stadt", "Ort", "city"))
    ensures c.phone == TextColumn(Pick3(f, "Telefon", "phone", "phoneNumber"))
  {
    Company(
      id, TextValue(CompanyName(f)),
      TextColumn(Pick2(f, "Rechtsform", "companyForm")),
      TextColumn(Pick2(f, "Branche", "industry")),
      Some(EmployeeCount(f)),
      TextColumn(Pick2(f, "Webseite", "website")),
      TextColumn(Pick3(f, "Telefon", "phone", "phoneNumber")),
      TextColumn(Pick2(f, "Email", "email")),
      TextColumn(Pick2(f, "Beschreibung", "description")),
      Some(RevenueBand(Pick2(f, "Umsatz", "revenueSize"))),
      TextColumn(Pick2(f, "Öffnungszeiten", "openingHours")),
      TextColumn(Pick3(f, "Straße", "street", "streetAddress")),
      TextColumn(Pick2(f, "PLZ", "postalCode")),
      TextColumn(Pick3(f, "Stadt", "Ort", "city")),
      TextColumn(Pick2(f, "Bundesland", "state")),
      TextColumn(Pick2(f, "Gründung", "foundingDate")),
      TextColumn(Pick2(f, "Projekt", "project")),
      now, None)
  }

  /** The primary contact a row describes. Last name, e-mail and phone fall back to "" (e-mail and
      phone first to the company's own), so they are never NULL. */
  function NewContact(f: map<string, JsVal>, id: int, companyId: int, now: int): (c: Contact)
    requires HasContact(f)
    ensures c.id == id && c.companyId == companyId && c.isPrimary && c.createdAt == now
    ensures c.firstName == TextValue(Pick3(f, "Vorname", "firstName", "Ansprechpartner")) && c.firstName != ""
    ensures c.lastName.Some? && c.email.Some? && c.phone.Some?
    ensures Truthy(Field(f, "Email")) && !Truthy(Field(f, "KontaktEmail")) && !Truthy(Field(f, "contactEmail")) ==>
      c.email == TextColumn(Field(f, "Email"))
    ensures c.notes.None?
  {
    var first := OrElse(Pick3(f, "Vorname", "firstName", "Ansprechpartner"), JStr("Unknown"));
    TruthyTextNotEmpty(first);
    Contact(
      id, companyId, TextValue(first),
      TextColumn(OrElse(Pick2(f, "Nachname", "lastName"), JStr(""))),
      TextColumn(OrElse(Pick3(f, "KontaktEmail", "contactEmail", "Email"), JStr(""))),
      TextColumn(OrElse(Pick3(f, "KontaktTelefon", "contactPhone", "Telefon"), JStr(""))),
      true,
      TextColumn(Pick2(f, "Position", "position")),
      TextColumn(Pick2(f, "Geburtsdatum", "birthDate")),
      TextColumn(Pick2(f, "LinkedIn", "linkedin")),
      TextColumn(Pick2(f, "Xing", "xing")),
      TextColumn(Pick2(f, "Facebook", "facebook")),
      None, now)
  }

  /** A truthy value is never stored as the empty text. */
  lemma TruthyTextNotEmpty(v: JsVal)
    requires Truthy(v)
    ensures TextValue(v) != ""
  {
  }

  /** The empty note every imported company gets. */
  function NewNote(id: int, companyId: int, now: int): (n: ConversationNote)
    ensures n.companyId == companyId && n.conversationHook == Some("") && n.researchResult == Some("")
    ensures n.updatedBy.None?
  {
    ConversationNote(id, companyId, Some(""), Some(""), None, now)
  }

  /** The initial assignment: no team, no agent, nobody who assigned it. */
  function NewAssignment(id: int, companyId: int, now: int): (a: Assignment)
    ensures a.companyId == companyId && a.status == Some(ImportedStatus) && a.assignedAt == now
    ensures a.teamId.None? && a.agentId.None? && a.assignedBy.None?
  {
    Assignment(id, companyId, None, None, Some(ImportedStatus), now, None)
  }

  /** The fault at `stage` fires. */
  predicate Fails(fault: Option<Fault>, stage: Stage) {
    fault.Some? && fault.value.stage == stage
  }

  /** The fault fires for this row: a contact insert can only fail when the row has a contact. */
  predicate Applies(fault: Option<Fault>, f: map<string, JsVal>) {
    fault.Some? && (fault.value.stage != ContactStage || HasContact(f))
  }

  /** `Failed to import ${customerData.Firma || 'unknown'}: ${error.message}` */
  function FailureMessage(f: map<string, JsVal>, message: string): string {
    "Failed to import " + JsToString(OrElse(Field(f, "Firma"), JStr("unknown"))) + ": " + message
  }

  /** The database after a row, and the error it was counted with (`None`: counted as a success). */
  datatype RowStep = RowStep(db: Db, error: Option<string>)

  /** Only the four tables the import writes changed, and each only by appending. */
  predicate OnlyAppends(db: Db, db': Db) {
    && db' == db.(companies := db'.companies, contacts := db'.contacts, notes := db'.notes,
                  assignments := db'.assignments)
    && db.companies <= db'.companies && db.contacts <= db'.contacts
    && db.notes <= db'.notes && db.assignments <= db'.assignments
  }

  /** What a successful row adds: one new company built from the row, an empty note and an
      unassigned "Neu Importiert" assignment for it, and a primary contact exactly when the row
      names one. */
  predicate AddsCustomer(db: Db, db': Db, f: map<string, JsVal>, now: int)
    requires HasCompanyName(f)
  {
    && OnlyAppends(db, db')
    && |db'.companies| == |db.companies| + 1
    && |db'.notes| == |db.notes| + 1
    && |db'.assignments| == |db.assignments| + 1
    && |db'.contacts| == |db.contacts| + (if HasContact(f) then 1 else 0)
    && var c := db'.companies[|db.companies|];
    && c.id !in CompanyIdsOf(db.companies)
    && c == NewCompany(f, c.id, now)
    && db'.notes[|db.notes|].companyId == c.id
    && db'.notes[|db.notes|] == NewNote(db'.notes[|db.notes|].id, c.id, now)
    && db'.assignments[|db.assignments|] == NewAssignment(db'.assignments[|db.assignments|].id, c.id, now)
    && (HasContact(f) ==>
          db'.contacts[|db.contacts|] == NewContact(f, db'.contacts[|db.contacts|].id, c.id, now))
  }

  /** How many of a row's four inserts complete: all four unless the fault fires, else those
      before the failing one. */
  function Completed(fault: Option<Fault>, f: map<string, JsVal>): (k: nat)
    ensures k <= 4
    ensures k == 4 <==> !Applies(fault, f)
    ensures Applies(fault, f) && fault.value.stage == CompanyStage ==> k == 0
  {
    if !Applies(fault, f) then 4
    else match fault.value.stage
      case CompanyStage => 0
      case ContactStage => 1
      case NoteStage => 2
      case AssignmentStage => 3
  }

  /** The rows one row of the sheet inserts, all about the company with id `companyId`; a contact,
      note or assignment takes the id `contactId`, `noteId` or `assignmentId`. */
  datatype RowInserts = RowInserts(companyId: int, contactId: int, noteId: int, assignmentId: int,
                                   companies: seq<Company>, contacts: seq<Contact>,
                                   notes: seq<ConversationNote>, assignments: seq<Assignment>)

  /** At most one company, with id `companyId`, and only rows that refer to it: an empty note and
      assignments with no team, no agent and nobody who assigned them. */
  predicate AboutOneCompany(ins: RowInserts) {
    && |ins.companies| <= 1 && |ins.contacts| <= 1 && |ins.notes| <= 1 && |ins.assignments| <= 1
    && (ins.companies == [] ==> ins.contacts == [] && ins.notes == [] && ins.assignments == [])
    && (ins.companies != [] ==> ins.companies[0].id == ins.companyId)
    && (ins.contacts != [] ==> ins.contacts[0].companyId == ins.companyId && ins.contacts[0].id == ins.contactId)
    && (ins.notes != [] ==>
          ins.notes[0].companyId == ins.companyId && ins.notes[0].updatedBy.None? && ins.notes[0].id == ins.noteId)
    && (ins.assignments != [] ==>
          var a := ins.assignments[0];
          a.companyId == ins.companyId && a.teamId.None? && a.agentId.None? && a.assignedBy.None?
          && a.id == ins.assignmentId)
  }

  /** The inserted contact, note and assignment take the next `AUTOINCREMENT` ids of their tables. */
  predicate FreshIds(db: Db, ins: RowInserts) {
    && ins.contactId == NextId(db.contacts, ContactKey)
    && ins.noteId == NextId(db.notes, NoteKey)
    && ins.assignmentId == NextId(db.assignments, AssignmentKey)
  }

  /** The rows a named row inserts: the inserts before the failing one, or all four. */
  function Inserts(db: Db, f: map<string, JsVal>, fault: Option<Fault>, now: int): (ins: RowInserts)
    requires HasCompanyName(f)
    ensures AboutOneCompany(ins) && FreshIds(db, ins)
    ensures ins.companyId !in CompanyIdsOf(db.companies)
    ensures Completed(fault, f) == 0 <==> ins.companies == []
    ensures Completed(fault, f) >= 1 ==> ins.companies == [NewCompany(f, ins.companyId, now)]
    ensures |ins.contacts| == (if Completed(fault, f) >= 2 && HasContact(f) then 1 else 0)
    ensures ins.contacts != [] ==> ins.contacts[0] == NewContact(f, ins.contacts[0].id, ins.companyId, now)
    ensures |ins.notes| == (if Completed(fault, f) >= 3 then 1 else 0)
    ensures ins.notes != [] ==> ins.notes[0] == NewNote(ins.notes[0].id, ins.companyId, now)
    ensures |ins.assignments| == (if Completed(fault, f) == 4 then 1 else 0)
    ensures ins.assignments != [] ==>
      ins.assignments[0] == NewAssignment(ins.assignments[0].id, ins.companyId, now)
  {
    var k := Completed(fault, f);
    var id := NextId(db.companies, CompanyKey);
    assert id !in CompanyIdsOf(db.companies);
    var contactId, noteId, assignmentId :=
      NextId(db.contacts, ContactKey), NextId(db.notes, NoteKey), NextId(db.assignments, AssignmentKey);
    RowInserts(id, contactId, noteId, assignmentId,
      if k >= 1 then [NewCompany(f, id, now)] else [],
      if k >= 2 && HasContact(f) then [NewContact(f, contactId, id, now)] else [],
      if k >= 3 then [NewNote(noteId, id, now)] else [],
      if k >= 4 then [NewAssignment(assignmentId, id, now)] else [])
  }

  /** The database with a row's inserts appended. */
  function Append(db: Db, ins: RowInserts): (r: Db)
    ensures OnlyAppends(db, r)
    ensures r.companies == db.companies + ins.companies && r.contacts == db.contacts + ins.contacts
    ensures r.notes == db.notes + ins.notes && r.assignments == db.assignments + ins.assignments
  {
    db.(companies := db.companies + ins.companies, contacts := db.contacts + ins.contacts,
        notes := db.notes + ins.notes, assignments := db.assignments + ins.assignments)
  }

  /** The body of the `try` for one row object. */
  function ImportOne(db: Db, f: map<string, JsVal>, fault: Option<Fault>, now: int): (r: RowStep)
    ensures OnlyAppends(db, r.db)
    ensures !HasCompanyName(f) ==> r == RowStep(db, Some(MissingNameMessage))
    ensures HasCompanyName(f) ==>
      r.error == (if Applies(fault, f) then Some(FailureMessage(f, fault.value.message)) else None)
    ensures forall i :: |db.assignments| <= i < |r.db.assignments| ==> r.db.assignments[i].assignedBy.None?
  {
    if !HasCompanyName(f) then RowStep(db, Some(MissingNameMessage))
    else
      RowStep(Append(db, Inserts(db, f, fault, now)),
              if Applies(fault, f) then Some(FailureMessage(f, fault.value.message)) else None)
  }

  /** A row counted as a success added exactly one customer: the company, its note, its assignment
      and, when the row names one, its primary contact. */
  lemma ImportOneAddsCustomer(db: Db, f: map<string, JsVal>, fault: Option<Fault>, now: int)
    requires HasCompanyName(f)
    ensures ImportOne(db, f, fault, now).error.None? <==> !Applies(fault, f)
    ensures ImportOne(db, f, fault, now).error.None? ==> AddsCustomer(db, ImportOne(db, f, fault, now).db, f, now)
  {
    var ins := Inserts(db, f, fault, now);
    var r := ImportOne(db, f, fault, now).db;
    if !Applies(fault, f) {
      assert r.companies[|db.companies|] == ins.companies[0];
      assert r.notes[|db.notes|] == ins.notes[0];
      assert r.assignments[|db.assignments|] == ins.assignments[0];
      if HasContact(f) {
        assert r.contacts[|db.contacts|] == ins.contacts[0];
      }
    }
  }

  /** A company insert that fails leaves the database as it was. */
  lemma CompanyFailureInsertsNothing(db: Db, f: map<string, JsVal>, message: string, now: int)
    ensures ImportOne(db, f, Some(Fault(CompanyStage, message)), now).db == db
  {
    if HasCompanyName(f) {
      var r := ImportOne(db, f, Some(Fault(CompanyStage, message)), now).db;
      assert r.companies == db.companies && r.contacts == db.contacts;
      assert r.notes == db.notes && r.assignments == db.assignments;
    }
  }

  /** The inserts are not wrapped in a transaction: when the note insert fails, the company and its
      contact stay, and the company has no note. */
  lemma NoteFailureLeavesCompanyWithoutNote(db: Db, f: map<string, JsVal>, message: string, now: int)
    requires HasCompanyName(f)
    ensures var r := ImportOne(db, f, Some(Fault(NoteStage, message)), now);
      && r.error.Some?
      && |r.db.companies| == |db.companies| + 1
      && r.db.notes == db.notes
      && |r.db.contacts| == |db.contacts| + (if HasContact(f) then 1 else 0)
  {
  }

  /** A row is never matched against the companies already stored: importing the same sheet twice
      stores each company twice, under a new id. */
  lemma ImportNeverMerges(db: Db, f: map<string, JsVal>, now: int)
    requires HasCompanyName(f)
    requires exists c :: c in db.companies && c.name == TextValue(CompanyName(f))
    ensures var r := ImportOne(db, f, None, now).db;
      && |r.companies| == |db.companies| + 1
      && r.companies[|db.companies|].name == TextValue(CompanyName(f))
      && r.companies[|db.companies|].id !in CompanyIdsOf(db.companies)
  {
  }

  /** Appending the rows about one company with a new id keeps every constraint. */
  lemma AppendConsistent(db: Db, ins: RowInserts)
    requires Consistent(db)
    requires AboutOneCompany(ins) && FreshIds(db, ins) && ins.companyId !in CompanyIdsOf(db.companies)
    ensures Consistent(Append(db, ins))
  {
    AppendKeepsUnique(db, ins);
    AppendKeepsForeignKeys(db, ins);
  }

  lemma AppendKeepsUnique(db: Db, ins: RowInserts)
    requires Unique(db) && NoteRefs(db)
    requires AboutOneCompany(ins) && FreshIds(db, ins) && ins.companyId !in CompanyIdsOf(db.companies)
    ensures Unique(Append(db, ins))
  {
    var r := Append(db, ins);
    AppendKeepsPrimaryKeys(db, ins);
    if ins.notes != [] {
      var n := ins.notes[0];
      assert ins.notes == [n];
      forall i | 0 <= i < |db.notes| ensures NoteCompany(db.notes[i]) != NoteCompany(n) {
        assert db.notes[i] in db.notes;
      }
      AppendKeepsKeysDistinct(db.notes, n, NoteCompany);
    } else {
      assert r.notes == db.notes;
    }
  }

  lemma AppendKeepsForeignKeys(db: Db, ins: RowInserts)
    requires ForeignKeys(db)
    requires AboutOneCompany(ins) && ins.companyId !in CompanyIdsOf(db.companies)
    ensures ForeignKeys(Append(db, ins))
  {
    var r := Append(db, ins);
    var id := ins.companyId;
    if ins.companies != [] {
      assert id in CompanyIdsOf(r.companies) by {
        assert r.companies[|db.companies|] == ins.companies[0];
      }
    }
    assert CompanyIdsOf(db.companies) <= CompanyIdsOf(r.companies);
    assert ContactIdsOf(db.contacts) <= ContactIdsOf(r.contacts);
    assert NoteRefs(r) by {
      forall n | n in r.notes ensures n.companyId in CompanyIdsOf(r.companies) && RefersToUser(n.updatedBy, r.users) {
        if n !in db.notes { assert n == ins.notes[0]; }
      }
    }
    assert ContactRefs(r) by {
      forall k | k in r.contacts ensures k.companyId in CompanyIdsOf(r.companies) {
        if k !in db.contacts { assert k == ins.contacts[0]; }
      }
    }
    assert AssignmentRefs(r) by {
      forall a | a in r.assignments
        ensures a.companyId in CompanyIdsOf(r.companies)
        ensures a.teamId.Some? ==> a.teamId.value in TeamIdsOf(r.teams)
        ensures RefersToUser(a.agentId, r.users) && RefersToUser(a.assignedBy, r.users)
      {
        if a !in db.assignments { assert a == ins.assignments[0]; }
      }
    }
  }

  lemma AppendKeepsPrimaryKeys(db: Db, ins: RowInserts)
    requires PrimaryKeys(db)
    requires AboutOneCompany(ins) && FreshIds(db, ins) && ins.companyId !in CompanyIdsOf(db.companies)
    ensures PrimaryKeys(Append(db, ins))
  {
  }

  /** On a database that keeps every constraint, a row's inserts keep every constraint as well,
      whether it succeeds or stops at a failing insert. */
  lemma ImportOneConsistent(db: Db, f: map<string, JsVal>, fault: Option<Fault>, now: int)
    requires Consistent(db)
    ensures Consistent(ImportOne(db, f, fault, now).db)
  {
    if HasCompanyName(f) {
      AppendConsistent(db, Inserts(db, f, fault, now));
    }
  }

  // ---------------------------------------------------------------- the whole sheet

  /** The state after a prefix of the rows: the database, the counts so far, and whether a
      `null` row has ended the request. */
  datatype Progress = Progress(db: Db, tally: Tally, crashed: bool)

  function FaultAt(faults: map<nat, Fault>, i: nat): Option<Fault> {
    if i in faults then Some(faults[i]) else None
  }

  /** One pass of the loop body: a `null` row ends the request, any other row is imported and
      counted. */
  function Step(p: Progress, row: ImportRow, fault: Option<Fault>, now: int): (p': Progress)
    requires !p.crashed
    ensures p'.crashed <==> row == NullRow
    ensures p'.crashed ==> p'.db == p.db && p'.tally == p.tally
    ensures !p'.crashed ==> p'.tally.success + p'.tally.failed == p.tally.success + p.tally.failed + 1
    ensures |p'.tally.errors| - p'.tally.failed == |p.tally.errors| - p.tally.failed
  {
    match row
    case NullRow => p.(crashed := true)
    case Record(f) =>
      var s := ImportOne(p.db, f, fault, now);
      var t := p.tally;
      var t' := if s.error.None? then t.(success := t.success + 1)
                else Tally(t.success, t.failed + 1, t.errors + [s.error.value]);
      Progress(s.db, t', false)
  }

  /** The `for ... of` loop over the rows, as a function of the rows seen so far. */
  function ImportRows(db: Db, rows: seq<ImportRow>, faults: map<nat, Fault>, now: int): (p: Progress)
    ensures |p.tally.errors| == p.tally.failed
    ensures p.crashed <==> NullRow in rows
    ensures !p.crashed ==> p.tally.success + p.tally.failed == |rows|
    ensures p.tally.success + p.tally.failed <= |rows|
    decreases |rows|
  {
    if rows == [] then Progress(db, Tally(0, 0, []), false)
    else
      var n := |rows| - 1;
      var p := ImportRows(db, rows[..n], faults, now);
      assert rows == rows[..n] + [rows[n]];
      if p.crashed then p else Step(p, rows[n], FaultAt(faults, n), now)
  }

  /** The rows before a `null` row are imported and counted as usual; the `null` row stops the
      request without changing the database further. */
  lemma {:induction false} NullRowStops(db: Db, rows: seq<ImportRow>, faults: map<nat, Fault>, now: int, i: nat)
    requires i < |rows| && rows[i] == NullRow && NullRow !in rows[..i]
    ensures ImportRows(db, rows, faults, now).db == ImportRows(db, rows[..i], faults, now).db
    ensures ImportRows(db, rows, faults, now).tally == ImportRows(db, rows[..i], faults, now).tally
    decreases |rows|
  {
    var n := |rows| - 1;
    var prefix := rows[..n];
    var p := ImportRows(db, prefix, faults, now);
    if n == i {
      assert prefix == rows[..i];
      assert ImportRows(db, rows, faults, now) == Step(p, NullRow, FaultAt(faults, n), now);
    } else {
      assert prefix[i] == NullRow && prefix[..i] == rows[..i];
      NullRowStops(db, prefix, faults, now, i);
      assert p.crashed;
      assert ImportRows(db, rows, faults, now) == p;
    }
  }

  /** Every step only appends to the four tables the import writes. */
  lemma {:induction false} ImportRowsOnlyAppends(db: Db, rows: seq<ImportRow>, faults: map<nat, Fault>, now: int)
    ensures OnlyAppends(db, ImportRows(db, rows, faults, now).db)
    decreases |rows|
  {
    if rows != [] {
      ImportRowsOnlyAppends(db, rows[..|rows| - 1], faults, now);
    }
  }

  /** The import keeps every constraint of a consistent database. */
  lemma {:induction false} ImportRowsConsistent(db: Db, rows: seq<ImportRow>, faults: map<nat, Fault>, now: int)
    requires Consistent(db)
    ensures Consistent(ImportRows(db, rows, faults, now).db)
    decreases |rows|
  {
    if rows != [] {
      var n := |rows| - 1;
      ImportRowsConsistent(db, rows[..n], faults, now);
      var p := ImportRows(db, rows[..n], faults, now);
      if !p.crashed && rows[n].Record? {
        ImportOneConsistent(p.db, rows[n].fields, FaultAt(faults, n), now);
      }
    }
  }

  /** Import never records who assigned a company: every assignment it adds has no `assignedBy`. */
  lemma {:induction false} ImportLeavesAssignerUnset(db: Db, rows: seq<ImportRow>, faults: map<nat, Fault>, now: int)
    ensures var r := ImportRows(db, rows, faults, now).db;
      forall i :: |db.assignments| <= i < |r.assignments| ==> r.assignments[i].assignedBy.None?
    decreases |rows|
  {
    if rows != [] {
      var n := |rows| - 1;
      ImportLeavesAssignerUnset(db, rows[..n], faults, now);
      assert forall i :: |db.assignments| <= i < |ImportRows(db, rows[..n], faults, now).db.assignments| ==> ImportRows(db, rows[..n], faults, now).db.assignments[i].assignedBy.None?;
      ImportRowsOnlyAppends(db, rows[..n], faults, now);
      var p := ImportRows(db, rows[..n], faults, now);
      if !p.crashed && rows[n].Record? {
        var r := ImportOne(p.db, rows[n].fields, FaultAt(faults, n), now).db;
        assert ImportRows(db, rows, faults, now).db == r;
        assert p.db.assignments <= r.assignments;
        forall i | |db.assignments| <= i < |r.assignments| ensures r.assignments[i].assignedBy.None? {
          if i < |p.db.assignments| {
            assert r.assignments[i] == p.db.assignments[i];
          }
        }
      } else {
        assert ImportRows(db, rows, faults, now).db == p.db;
      }
    }
  }

  /** The loop over the rows: it keeps the counters and the database, and stops at a `null` row. */
  method ImportLoop(rows: seq<ImportRow>, db: Db, faults: map<nat, Fault>, now: int) returns (p: Progress)
    ensures p == ImportRows(db, rows, faults, now)
  {
    var success, failed, errors := 0, 0, [];
    var db' := db;
    var i := 0;
    while i < |rows|
      invariant 0 <= i <= |rows|
      invariant ImportRows(db, rows[..i], faults, now) == Progress(db', Tally(success, failed, errors), false)
    {
      assert rows[..i + 1][..i] == rows[..i];
      assert ImportRows(db, rows[..i + 1], faults, now)
        == Step(Progress(db', Tally(success, failed, errors), false), rows[i], FaultAt(faults, i), now);
      if rows[i] == NullRow {
        NullRowStops(db, rows, faults, now, i);
        return Progress(db', Tally(success, failed, errors), true);
      }
      var step := ImportOne(db', rows[i].fields, FaultAt(faults, i), now);
      db' := step.db;
      if step.error.None? {
        success := success + 1;
      } else {
        failed := failed + 1;
        errors := errors + [step.error.value];
      }
      i := i + 1;
    }
    assert rows[..i] == rows;
    p := Progress(db', Tally(success, failed, errors), false);
  }

  /** `POST /api/customers/import`: a missing or `null` body makes the destructuring throw, which the
      framework answers with 500; a body without a `customers` array is refused with 400; a `null`
      row ends the request with 500 after the rows before it were imported; otherwise the answer
      counts every row once, as a success or as a failure with its message. */
  method ImportCustomers(body: Option<ImportBody>, db: Db, faults: map<nat, Fault>, now: int)
    returns (r: Response<Tally>, db': Db)
    ensures body.None? ==> r == Err(Unhandled) && db' == db
    ensures body.Some? && body.value.customers.None? ==> r == Err(InvalidBody) && db' == db
    ensures body.Some? && body.value.customers.Some? ==>
      var p := ImportRows(db, body.value.customers.value, faults, now);
      && db' == p.db
      && r == (if p.crashed then Err(Unhandled) else Ok(p.tally))
    ensures body.Some? && body.value.customers.Some? ==> (r.Err? <==> NullRow in body.value.customers.value)
    ensures r.Ok? ==>
      && body.Some? && body.value.customers.Some?
      && r.value.success + r.value.failed == |body.value.customers.value|
      && |r.value.errors| == r.value.failed
  {
    if body.None? {
      return Err(Unhandled), db;
    }
    var customers := body.value.customers;
    if customers.None? {
      return Err(InvalidBody), db;
    }
    var p := ImportLoop(customers.value, db, faults, now);
    db' := p.db;
    r := if p.crashed then Err(Unhandled) else Ok(p.tally);
  }
}
