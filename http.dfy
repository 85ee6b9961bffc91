/**
 * What every endpoint shares: the session the authentication library hands over (taken here as an
 * input value) and the `createError({ statusCode, statusMessage })` failures it throws.
 */
module Http {
  import opened Js

  /** `session.user`: the id, display name and the free-text `role` column of the signed-in user. */
  datatype SessionUser = SessionUser(id: string, name: string, role: string)

  datatype HttpError = HttpError(statusCode: int, statusMessage: string)

  type Response<T> = Result<T, HttpError>

  /** `if (!session?.user) throw createError({ statusCode: 401, statusMessage: message })` */
  function RequireSession(session: Option<SessionUser>, message: string): (r: Response<SessionUser>)
    ensures session.None? <==> r.Err?
    ensures r.Err? ==> r.error.statusCode == 401
    ensures r.Ok? ==> r.value == session.value
  {
    match session
    case None => Err(HttpError(401, message))
    case Some(u) => Ok(u)
  }

  predicate IsAdminOrTeamleadRole(role: string) {
    role == "Admin" || role == "Teamlead"
  }

  /** The gate shared by the analyse and user-administration endpoints:
      401 without a session, 403 unless the role is Admin or Teamlead. */
  function RequireAdminOrTeamlead(session: Option<SessionUser>): (r: Response<SessionUser>)
    ensures session.None? ==> r == Err(HttpError(401, "Unauthorized"))
    ensures session.Some? && !IsAdminOrTeamleadRole(session.value.role) ==>
      r == Err(HttpError(403, "Forbidden - Admin or Teamlead access required"))
    ensures r.Ok? <==> session.Some? && IsAdminOrTeamleadRole(session.value.role)
    ensures r.Ok? ==> r.value == session.value
  {
    match session
    case None => Err(HttpError(401, "Unauthorized"))
    case Some(u) =>
      if u.role != "Admin" && u.role != "Teamlead" then
        Err(HttpError(403, "Forbidden - Admin or Teamlead access required"))
      else Ok(u)
  }
}
