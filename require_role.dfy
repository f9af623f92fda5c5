/**
 * The API gateway's role guard
 * (apps/api-gateway/src/middleware/requireRole.ts): a middleware factory
 * whose middleware lets a request through only for the required role or
 * for an administrator.
 */
module RequireRole {
  import opened Wrappers
  import opened Js

  /** The role a route demands: `requireRole("admin")` or `requireRole("user")`. */
  datatype Role = Admin | User

  function RoleName(r: Role): string {
    match r
    case Admin => "admin"
    case User => "user"
  }

  /** What the middleware does with the request. */
  datatype Decision =
    | Next                                  // next()
    | Deny(status: int, error: string)      // res.status(status).json({error})

  /**
   * `requireRole(required)` applied to `req.user` (`user`, the decoded token
   * or `undefined`): 401 without a user; otherwise the request goes on exactly
   * when the user's role is the required one or `admin`, and is a 403 if not.
   */
  function Decide(required: Role, user: JsValue): (d: Decision)
    ensures !Truthy(user) ==> d == Deny(401, "Unauthorized")
    ensures d.Next? <==>
              Truthy(user) && (Prop(user, "role") == Some(Str(RoleName(required))) || Prop(user, "role") == Some(Str("admin")))
    ensures Truthy(user) && !d.Next? ==> d == Deny(403, "Forbidden: insufficient role")
  {
    if !Truthy(user) then Deny(401, "Unauthorized")
    else
      var role := Prop(user, "role").value;
      if role != Str(RoleName(required)) && role != Str("admin") then Deny(403, "Forbidden: insufficient role")
      else Next
  }

  /** The token of a signed-in user whose payload has the given `role`. */
  function UserWithRole(role: JsValue): JsValue {
    Obj(map["role" := role])
  }

  /**
   * The role matrix: an administrator passes both guards, a `user` passes
   * only `requireRole("user")`, and any other role (or none) is refused by
   * both with 403.
   */
  lemma RoleMatrix(required: Role, other: JsValue)
    requires other != Str("admin") && other != Str("user")
    ensures Decide(required, UserWithRole(Str("admin"))) == Next
    ensures Decide(User, UserWithRole(Str("user"))) == Next
    ensures Decide(Admin, UserWithRole(Str("user"))) == Deny(403, "Forbidden: insufficient role")
    ensures Decide(required, UserWithRole(other)) == Deny(403, "Forbidden: insufficient role")
  {
    assert Prop(UserWithRole(other), "role") == Some(other);
    assert Prop(UserWithRole(Str("admin")), "role") == Some(Str("admin"));
    assert Prop(UserWithRole(Str("user")), "role") == Some(Str("user"));
  }

  /** Anything that is let through by `requireRole("admin")` is let through by `requireRole("user")` too. */
  lemma AdminGuardIsStricter(user: JsValue)
    ensures Decide(Admin, user).Next? ==> Decide(User, user).Next?
  {
  }
}
