/**
 * The role helpers of the server: `hasRole`, `isAdmin`, `isAdminOrTeamlead` and `getUserRole`
 * take an arbitrary JavaScript value (whatever `session.user` happens to be).
 */
module Roles {
  import opened Js

  datatype UserRole = Admin | Teamlead | Agent {
    /** The string the `role` column holds for this role. */
    function Name(): string {
      match this
      case Admin => "Admin"
      case Teamlead => "Teamlead"
      case Agent => "Agent"
    }
  }

  /** An `unknown` value: a primitive (including `null`/`undefined`), a function, or an object with
      its own properties. */
  datatype Unknown = Primitive(v: JsVal) | Function | Object(props: map<string, JsVal>)

  /** The role names are the three strings "Admin", "Teamlead" and "Agent", and no two roles share one. */
  function ParseRole(s: string): (r: Option<UserRole>)
    ensures r.Some? ==> r.value.Name() == s
    ensures forall role: UserRole :: role.Name() == s ==> r == Some(role)
  {
    if s == "Admin" then Some(Admin)
    else if s == "Teamlead" then Some(Teamlead)
    else if s == "Agent" then Some(Agent)
    else None
  }

  /** `hasRole(user, role)`: false unless `user` is a truthy object; then `user.role === role`. */
  predicate HasRole(user: Unknown, role: UserRole) {
    match user
    case Primitive(_) => false
    case Function => false
    case Object(props) => Field(props, "role") == JStr(role.Name())
  }

  predicate IsAdmin(user: Unknown) {
    HasRole(user, Admin)
  }

  predicate IsAdminOrTeamlead(user: Unknown) {
    HasRole(user, Admin) || HasRole(user, Teamlead)
  }

  /** `getUserRole(user)`: the role when `user.role` is one of the three role names, else `undefined`. */
  function GetUserRole(user: Unknown): (r: Option<UserRole>)
    ensures r.Some? ==> user.Object?
    ensures user.Object? && Field(user.props, "role").JStr? ==> r == ParseRole(Field(user.props, "role").s)
    ensures user.Object? && !Field(user.props, "role").JStr? ==> r.None?
  {
    match user
    case Primitive(_) => None
    case Function => None
    case Object(props) =>
      match Field(props, "role")
      case JStr(s) => ParseRole(s)
      case _ => None
  }

  /** Null, undefined and every other non-object value has no role. */
  lemma HasRoleNeedsObject(user: Unknown, role: UserRole)
    requires !user.Object?
    ensures !HasRole(user, role) && GetUserRole(user).None?
  {
  }

  /** `getUserRole` agrees with `hasRole` in both directions. */
  lemma GetUserRoleMatchesHasRole(user: Unknown, role: UserRole)
    ensures GetUserRole(user) == Some(role) <==> HasRole(user, role)
  {
  }

  /** A user has at most one role. */
  lemma HasRoleFunctional(user: Unknown, r1: UserRole, r2: UserRole)
    requires HasRole(user, r1) && HasRole(user, r2)
    ensures r1 == r2
  {
  }

  /** `isAdminOrTeamlead` holds exactly for Admin and Teamlead, and every Admin passes it. */
  lemma IsAdminOrTeamleadExactly(user: Unknown)
    ensures IsAdminOrTeamlead(user) <==> GetUserRole(user) == Some(Admin) || GetUserRole(user) == Some(Teamlead)
    ensures IsAdmin(user) ==> IsAdminOrTeamlead(user)
    ensures HasRole(user, Agent) ==> !IsAdminOrTeamlead(user)
  {
  }
}
