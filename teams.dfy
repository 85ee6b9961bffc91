/**
 * `GET /api/teams`: the teams a signed-in user may assign work to. Admins see every team, a
 * Teamlead sees the teams they lead, everyone else sees none; the list is ordered by name.
 */
module Teams {
  import opened Js
  import opened Seqs
  import opened Sorting
  import opened Http
  import opened Schema

  /** `orderBy(asc(teams.name))` */
  predicate TeamNameLe(a: Team, b: Team) {
    StrLe(a.name, b.name)
  }

  lemma TeamNameOrder()
    ensures TotalPreorder(TeamNameLe)
  {
    forall a: Team, b: Team ensures TeamNameLe(a, b) || TeamNameLe(b, a) {
      StrLeTotal(a.name, b.name);
    }
    forall a: Team, b: Team, c: Team | TeamNameLe(a, b) && TeamNameLe(b, c) ensures TeamNameLe(a, c) {
      StrLeTransitive(a.name, b.name, c.name);
    }
  }

  predicate LedBy(lead: string, t: Team) {
    t.teamleadId == Some(lead)
  }

  function ListTeams(session: Option<SessionUser>, db: Db): (r: Response<seq<Team>>)
    ensures session.None? <==> r == Err(HttpError(401, "Unauthorized"))
    ensures r.Ok? ==> SortedBy(r.value, TeamNameLe)
    ensures session.Some? && session.value.role == "Admin" ==>
      r.Ok? && multiset(r.value) == multiset(db.teams)
    ensures session.Some? && session.value.role == "Teamlead" ==>
      r.Ok? && (forall t :: t in r.value <==> t in db.teams && t.teamleadId == Some(session.value.id))
        && multiset(r.value) == multiset(Filter(db.teams, t => LedBy(session.value.id, t)))
    ensures session.Some? && session.value.role != "Admin" && session.value.role != "Teamlead" ==>
      r == Ok([])
  {
    match session
    case None => Err(HttpError(401, "Unauthorized"))
    case Some(u) =>
      TeamNameOrder();
      if u.role == "Admin" then
        SortByFacts(db.teams, TeamNameLe);
        Ok(SortBy(db.teams, TeamNameLe))
      else if u.role == "Teamlead" then
        var led := Filter(db.teams, t => LedBy(u.id, t));
        SortByFacts(led, TeamNameLe);
        Ok(SortBy(led, TeamNameLe))
      else Ok([])
  }
}
