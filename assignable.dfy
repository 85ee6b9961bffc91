/**
 * `GET /api/users/assignable`: the users the signed-in user may assign a customer or task to.
 * Admins may pick anyone, a Teamlead the members of the teams they lead and themselves, everyone
 * else only themselves.
 */
module Assignable {
  import opened Js
  import opened Seqs
  import opened Sorting
  import opened Http
  import opened Schema
  import opened TeamScope

  /** The `{ id, name, role }` columns the endpoint selects. */
  datatype UserSummary = UserSummary(id: string, name: string, role: string)

  function Summary(u: User): UserSummary {
    UserSummary(u.id, u.name, u.role)
  }

  /** `orderBy: asc(users.name)` */
  predicate UserNameLe(a: User, b: User) {
    StrLe(a.name, b.name)
  }

  lemma UserNameOrder()
    ensures TotalPreorder(UserNameLe)
  {
    forall a: User, b: User ensures UserNameLe(a, b) || UserNameLe(b, a) {
      StrLeTotal(a.name, b.name);
    }
    forall a: User, b: User, c: User | UserNameLe(a, b) && UserNameLe(b, c) ensures UserNameLe(a, c) {
      StrLeTransitive(a.name, b.name, c.name);
    }
  }

  predicate NamesAscending(s: seq<UserSummary>) {
    forall i, j :: 0 <= i < j < |s| ==> StrLe(s[i].name, s[j].name)
  }

  /** `users.findMany({ columns: { id, name, role }, orderBy: asc(users.name) })` over `users`. */
  function SummariesByName(users: seq<User>): (r: seq<UserSummary>)
    ensures |r| == |users|
    ensures NamesAscending(r)
    ensures forall s :: s in r <==> exists u :: u in users && s == Summary(u)
  {
    UserNameOrder();
    var sorted := SortBy(users, UserNameLe);
    SortByFacts(users, UserNameLe);
    var r := MapSeq(sorted, Summary);
    assert forall s :: s in r ==> exists u :: u in users && s == Summary(u) by {
      forall s | s in r ensures exists u :: u in users && s == Summary(u) {
        var i :| 0 <= i < |r| && r[i] == s;
        assert sorted[i] in users;
      }
    }
    assert forall u :: u in users ==> Summary(u) in r by {
      forall u | u in users ensures Summary(u) in r {
        var i :| 0 <= i < |sorted| && sorted[i] == u;
        assert r[i] == Summary(u);
      }
    }
    r
  }

  predicate InScope(ids: seq<string>, u: User) {
    u.id in ids
  }

  /** A user a Teamlead with teams may pick: themselves or a member of a team they lead. */
  predicate MayPick(db: Db, lead: string, u: User) {
    u.id == lead || u.id in Members(db, lead)
  }

  method AssignableUsers(session: Option<SessionUser>, db: Db) returns (r: Response<seq<UserSummary>>)
    ensures session.None? <==> r == Err(HttpError(401, "Unauthorized"))
    ensures r.Ok? ==> NamesAscending(r.value)
    ensures session.Some? && session.value.role == "Admin" ==>
      r.Ok? && |r.value| == |db.users|
        && (forall s :: s in r.value <==> exists u :: u in db.users && s == Summary(u))
    ensures session.Some? && session.value.role == "Teamlead" && LedTeamIds(db.teams, session.value.id) == [] ==>
      r == Ok([UserSummary(session.value.id, session.value.name, "Teamlead")])
    ensures session.Some? && session.value.role == "Teamlead" && LedTeamIds(db.teams, session.value.id) != [] ==>
      && r.Ok?
      && (forall s :: s in r.value <==> exists u :: u in db.users && MayPick(db, session.value.id, u) && s == Summary(u))
      && |r.value| == |Filter(db.users, u => MayPick(db, session.value.id, u))|
    ensures session.Some? && session.value.role != "Admin" && session.value.role != "Teamlead" ==>
      r == Ok([UserSummary(session.value.id, session.value.name, session.value.role)])
  {
    if session.None? {
      return Err(HttpError(401, "Unauthorized"));
    }
    var user := session.value;
    if user.role == "Admin" {
      return Ok(SummariesByName(db.users));
    } else if user.role == "Teamlead" {
      if LedTeamIds(db.teams, user.id) == [] {
        return Ok([UserSummary(user.id, user.name, user.role)]);
      }
      var ids := TeamleadScope(db, user.id);
      var picked := Filter(db.users, u => InScope(ids, u));
      FilterCongruent(db.users, u => InScope(ids, u), u => MayPick(db, user.id, u));
      return Ok(SummariesByName(picked));
    } else {
      return Ok([UserSummary(user.id, user.name, user.role)]);
    }
  }
}
