/**
 * `GET /api/admin/users`: the user administration's list of sign-in accounts (the authentication
 * library's `user` table), newest first, one page at a time. Admins and Teamleads only.
 */
module AdminUsers {
  import opened Js
  import opened Seqs
  import opened Sorting
  import opened Http
  import opened Pagination
  import opened Schema

  const DefaultPage := 1
  const DefaultLimit := 50

  datatype UserQuery = UserQuery(page: Option<string>, limit: Option<string>)

  datatype UserPage = UserPage(data: seq<AuthUser>, total: nat, page: int, limit: int, pages: int)

  /** `orderBy: desc(user.createdAt)` */
  predicate NewestFirst(a: AuthUser, b: AuthUser) {
    IntDesc(a.createdAt, b.createdAt)
  }

  lemma NewestFirstOrder()
    ensures TotalPreorder(NewestFirst)
  {
  }

  /** All accounts in the order the query reads them. */
  function Newest(db: Db): (r: seq<AuthUser>)
    ensures SortedBy(r, NewestFirst)
    ensures multiset(r) == multiset(db.authUsers)
  {
    NewestFirstOrder();
    SortByFacts(db.authUsers, NewestFirst);
    SortBy(db.authUsers, NewestFirst)
  }

  /** `GET /api/admin/users` */
  function ListUsers(session: Option<SessionUser>, q: UserQuery, db: Db): (r: Response<UserPage>)
    ensures session.None? ==> r == Err(HttpError(401, "Unauthorized"))
    ensures session.Some? && !IsAdminOrTeamleadRole(session.value.role) ==>
      r == Err(HttpError(403, "Forbidden - Admin or Teamlead access required"))
    ensures r.Ok? <==> session.Some? && IsAdminOrTeamleadRole(session.value.role)
    ensures r.Ok? ==>
      && r.value.total == |db.authUsers|
      && r.value.page == IntParamOr(q.page, DefaultPage)
      && r.value.limit == IntParamOr(q.limit, DefaultLimit)
      && r.value.pages == Pages(r.value.total, r.value.limit)
      && SortedBy(r.value.data, NewestFirst)
      && (forall u :: u in r.value.data ==> u in db.authUsers)
      && (r.value.limit > 0 ==> |r.value.data| <= r.value.limit)
      && r.value.data == LimitOffset(Newest(db), r.value.limit, Offset(r.value.page, r.value.limit))
  {
    match RequireAdminOrTeamlead(session)
    case Err(e) => Err(e)
    case Ok(_) =>
      var page := IntParamOr(q.page, DefaultPage);
      var limit := IntParamOr(q.limit, DefaultLimit);
      NewestPage(db, page, limit);
      Ok(UserPage(PageOf(Newest(db), page, limit), |db.authUsers|, page, limit, Pages(|db.authUsers|, limit)))
  }

  /** What a page of the newest-first list holds. */
  lemma NewestPage(db: Db, page: int, limit: int)
    ensures var data := PageOf(Newest(db), page, limit);
      && SortedBy(data, NewestFirst)
      && (forall u :: u in data ==> u in db.authUsers)
      && (limit > 0 ==> |data| <= limit)
  {
    var sorted := Newest(db);
    SortedPage(sorted, NewestFirst, page, limit);
    assert forall u :: u in sorted ==> u in multiset(db.authUsers);
  }

  /** The pages a client reads by sending the page texts `texts` in turn, the rest of the query
      unchanged. */
  function PagesRead(session: Option<SessionUser>, q: UserQuery, db: Db, texts: seq<string>): seq<seq<AuthUser>>
    requires session.Some? && IsAdminOrTeamleadRole(session.value.role)
  {
    seq(|texts|, i requires 0 <= i < |texts| => ListUsers(session, q.(page := Some(texts[i])), db).value.data)
  }

  /** Reading pages `?page=1` to `?page=pages` in turn lists every account exactly once, newest
      first. */
  lemma PagesListEveryUserOnce(session: Option<SessionUser>, q: UserQuery, db: Db)
    requires ListUsers(session, q, db).Ok?
    requires ListUsers(session, q, db).value.limit > 0
    ensures var p := ListUsers(session, q, db).value;
      && p.pages >= 0
      && Concat(PagesRead(session, q, db, PageNumbers(p.pages))) == Newest(db)
      && multiset(Concat(PagesRead(session, q, db, PageNumbers(p.pages)))) == multiset(db.authUsers)
  {
    var p := ListUsers(session, q, db).value;
    PagesCoverRows(Newest(db), p.limit);
    assert |Newest(db)| == |db.authUsers| by {
      assert |Newest(db)| == |multiset(Newest(db))|;
    }
    var texts := PageNumbers(p.pages);
    PageNumbersRead(|texts|, DefaultPage);
    PagesReadInOrder(session, q, db, texts);
  }

  /** Page texts that read as 1, 2, ... in turn give the first pages of the newest-first list. */
  lemma PagesReadInOrder(session: Option<SessionUser>, q: UserQuery, db: Db, texts: seq<string>)
    requires session.Some? && IsAdminOrTeamleadRole(session.value.role)
    requires forall i :: 0 <= i < |texts| ==> IntParamOr(Some(texts[i]), DefaultPage) == i + 1
    ensures PagesRead(session, q, db, texts) == FirstPages(Newest(db), IntParamOr(q.limit, DefaultLimit), |texts|)
  {
    var pages := PagesRead(session, q, db, texts);
    var limit := IntParamOr(q.limit, DefaultLimit);
    forall i | 0 <= i < |texts|
      ensures pages[i] == PageOf(Newest(db), i + 1, limit)
    {
      PageOfParam(session, q, db, texts[i], i + 1);
    }
    PagesInOrder(pages, Newest(db), limit);
  }

  /** A page text that reads as n >= 1 selects page n of the newest-first list. */
  lemma PageOfParam(session: Option<SessionUser>, q: UserQuery, db: Db, text: string, n: int)
    requires session.Some? && IsAdminOrTeamleadRole(session.value.role)
    requires n >= 1 && IntParamOr(Some(text), DefaultPage) == n
    ensures ListUsers(session, q.(page := Some(text)), db).value.data == PageOf(Newest(db), n, IntParamOr(q.limit, DefaultLimit))
  {
  }

  /** A page number below 1 (such as `-3`) makes a negative offset, which SQLite reads as 0: the
      first page is returned, while `page` echoes the number asked for. */
  lemma PageBelowOneIsFirstPage(session: Option<SessionUser>, q: UserQuery, db: Db)
    requires ListUsers(session, q, db).Ok?
    requires ListUsers(session, q, db).value.page < 1 && ListUsers(session, q, db).value.limit > 0
    ensures ListUsers(session, q, db).value.data == ListUsers(session, q.(page := None), db).value.data
  {
    PageBelowOne(Newest(db), IntParamOr(q.page, DefaultPage), IntParamOr(q.limit, DefaultLimit));
  }
}
