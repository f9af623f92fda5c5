/**
 * Sign-up and log-in of the auth/tenant service
 * (apps/auth-tenant-service/src/server.ts). The `tenants` and `users`
 * tables are the state; bcrypt, the database's generated ids and the
 * outcome of each INSERT are inputs, and a JWT is the value it signs.
 */
module Auth {
  import opened Wrappers
  import opened Js

  /** A row of `tenants`. */
  datatype Tenant = Tenant(id: string, name: JsValue)

  /** A row of `users`; `tenantId` is whatever the sign-up stored (`Undefined` for none). */
  datatype UserRow = UserRow(id: string, email: JsValue, passwordHash: string, tenantId: JsValue, role: string)

  datatype Claims = Claims(userId: string, tenantId: JsValue, role: string)

  /** `jwt.sign(claims, secret, {expiresIn})`. */
  datatype Token = Token(claims: Claims, secret: string, expiresIn: string)

  datatype AuthReply =
    | SignupOk(token: Token, tenantId: JsValue, role: string)   // res.json({token, tenantId, role})
    | LoginOk(token: Token)                                     // res.json({token})
    | AuthRefused(code: int, error: string)                     // res.status(code).json({error})

  /**
   * What sign-up's collaborators do: the bcrypt hash (None when it throws),
   * the id the tenant INSERT returns, whether the tenant SELECT of a user
   * sign-up ran (false when it throws), the id the user INSERT returns (None
   * when it throws, e.g. on a duplicate email), and `JWT_SECRET`.
   */
  datatype SignupEnv = SignupEnv(hash: Option<string>, tenantInsert: Option<string>, tenantLookupOk: bool,
                                 userInsert: Option<string>, jwtSecret: Option<string>)

  datatype SignupOutcome = SignupOutcome(tenants: seq<Tenant>, users: seq<UserRow>, reply: AuthReply)

  const SignupFailed := AuthRefused(500, "Signup failed")

  /** `SELECT id FROM tenants WHERE id = $1` finds a row. */
  predicate TenantExists(tenants: seq<Tenant>, orgId: JsValue) {
    exists i :: 0 <= i < |tenants| && Str(tenants[i].id) == orgId
  }

  /**
   * The end of sign-up, shared by every branch: insert the user, then sign a
   * 15-minute token. `JWT_SECRET` is used as it is, and signing with a
   * missing or empty secret throws; so does a failed INSERT. Either way the
   * answer is 500, and nothing inserted before is undone.
   */
  function CreateUser(tenants: seq<Tenant>, users: seq<UserRow>, email: JsValue, hash: string,
                      tenantId: JsValue, role: string, env: SignupEnv): SignupOutcome
  {
    match env.userInsert
    case None => SignupOutcome(tenants, users, SignupFailed)
    case Some(userId) =>
      var users' := users + [UserRow(userId, email, hash, tenantId, role)];
      if env.jwtSecret.None? || env.jwtSecret.value == "" then SignupOutcome(tenants, users', SignupFailed)
      else SignupOutcome(tenants, users', SignupOk(Token(Claims(userId, tenantId, role), env.jwtSecret.value, "15m"), tenantId, role))
  }

  /** `POST /auth/signup` over the tables `tenants` and `users`. */
  function Signup(tenants: seq<Tenant>, users: seq<UserRow>, body: Body, env: SignupEnv): SignupOutcome {
    var email := Field(body, "email");
    var password := Field(body, "password");
    var signupType := Field(body, "signupType");
    var tenantName := Field(body, "tenantName");
    var orgId := Field(body, "orgId");
    if !Truthy(email) || !Truthy(password) || !Truthy(signupType) then
      SignupOutcome(tenants, users, AuthRefused(400, "Missing fields"))
    else if env.hash.None? then
      SignupOutcome(tenants, users, SignupFailed)
    else if signupType == Str("admin") then
      if !Truthy(tenantName) then SignupOutcome(tenants, users, AuthRefused(400, "Tenant name required"))
      else if env.tenantInsert.None? then SignupOutcome(tenants, users, SignupFailed)
      else
        var tenantId := env.tenantInsert.value;
        CreateUser(tenants + [Tenant(tenantId, tenantName)], users, email, env.hash.value, Str(tenantId), "admin", env)
    else if signupType == Str("user") then
      if !Truthy(orgId) then SignupOutcome(tenants, users, AuthRefused(400, "Missing orgId"))
      else if !env.tenantLookupOk then SignupOutcome(tenants, users, SignupFailed)
      else if !TenantExists(tenants, orgId) then SignupOutcome(tenants, users, AuthRefused(400, "Invalid organization"))
      else CreateUser(tenants, users, email, env.hash.value, orgId, "user", env)
    else
      CreateUser(tenants, users, email, env.hash.value, Undefined, "user", env)
  }

  /** Every sign-up adds at most one tenant and at most one user, at the end of each table, and removes nothing. */
  lemma SignupOnlyAppends(tenants: seq<Tenant>, users: seq<UserRow>, body: Body, env: SignupEnv)
    ensures var o := Signup(tenants, users, body, env);
            && (o.tenants == tenants || o.tenants == tenants + [o.tenants[|tenants|]])
            && (o.users == users || o.users == users + [o.users[|users|]])
  {
  }

  /** A request without email, password or signup type is a 400 that creates nothing. */
  lemma MissingFieldsCreateNothing(tenants: seq<Tenant>, users: seq<UserRow>, body: Body, env: SignupEnv)
    requires !Truthy(Field(body, "email")) || !Truthy(Field(body, "password")) || !Truthy(Field(body, "signupType"))
    ensures Signup(tenants, users, body, env) == SignupOutcome(tenants, users, AuthRefused(400, "Missing fields"))
  {
  }

  /** The fields every sign-up below needs to get past the first check and the hash. */
  predicate Submitted(body: Body, env: SignupEnv) {
    Truthy(Field(body, "email")) && Truthy(Field(body, "password")) && env.hash.Some?
  }

  /**
   * Admin sign-up: without a tenant name it is a 400 that creates nothing;
   * otherwise exactly one tenant is created, and the user, if inserted, is
   * its `admin`. A failed user INSERT does not take the tenant back.
   */
  lemma AdminSignup(tenants: seq<Tenant>, users: seq<UserRow>, body: Body, env: SignupEnv)
    requires Submitted(body, env) && Field(body, "signupType") == Str("admin")
    ensures !Truthy(Field(body, "tenantName")) ==>
              Signup(tenants, users, body, env) == SignupOutcome(tenants, users, AuthRefused(400, "Tenant name required"))
    ensures Truthy(Field(body, "tenantName")) && env.tenantInsert.Some? ==>
              var o := Signup(tenants, users, body, env);
              var t := Tenant(env.tenantInsert.value, Field(body, "tenantName"));
              && o.tenants == tenants + [t]
              && (env.userInsert.Some? ==>
                    o.users == users + [UserRow(env.userInsert.value, Field(body, "email"), env.hash.value, Str(t.id), "admin")])
              && (env.userInsert.None? ==> o.users == users && o.reply == SignupFailed)
  {
  }

  /**
   * User sign-up: it joins an existing tenant. Without an `orgId`, or with
   * one the tenant lookup finds no row for, it is a 400 that creates
   * nothing; a lookup that throws is a 500 that creates nothing; otherwise
   * no tenant is created and the user, if inserted, gets role `user` and
   * the `orgId` as tenant.
   */
  lemma UserSignup(tenants: seq<Tenant>, users: seq<UserRow>, body: Body, env: SignupEnv)
    requires Submitted(body, env) && Field(body, "signupType") == Str("user")
    ensures var o := Signup(tenants, users, body, env);
            !Truthy(Field(body, "orgId")) || (env.tenantLookupOk && !TenantExists(tenants, Field(body, "orgId"))) ==>
              o.tenants == tenants && o.users == users && o.reply.AuthRefused? && o.reply.code == 400
    ensures Truthy(Field(body, "orgId")) && !env.tenantLookupOk ==>
              Signup(tenants, users, body, env) == SignupOutcome(tenants, users, SignupFailed)
    ensures var o := Signup(tenants, users, body, env);
            && o.tenants == tenants
            && (o.users != users ==>
                  env.tenantLookupOk && TenantExists(tenants, Field(body, "orgId"))
                  && o.users == users + [UserRow(env.userInsert.value, Field(body, "email"), env.hash.value, Field(body, "orgId"), "user")])
  {
  }

  /** Any other truthy signup type still creates a user: role `user`, no tenant. */
  lemma OtherSignupTypeCreatesUser(tenants: seq<Tenant>, users: seq<UserRow>, body: Body, env: SignupEnv)
    requires Submitted(body, env) && Truthy(Field(body, "signupType"))
    requires Field(body, "signupType") != Str("admin") && Field(body, "signupType") != Str("user")
    requires env.userInsert.Some?
    ensures var o := Signup(tenants, users, body, env);
            && o.tenants == tenants
            && o.users == users + [UserRow(env.userInsert.value, Field(body, "email"), env.hash.value, Undefined, "user")]
  {
  }

  /**
   * The sign-up token carries the new user's id, tenant and role, signed
   * with `JWT_SECRET` for 15 minutes, and the reply repeats the tenant and
   * role. Without a usable secret the user is still inserted, but the
   * answer is 500.
   */
  lemma SignupToken(tenants: seq<Tenant>, users: seq<UserRow>, body: Body, env: SignupEnv)
    ensures var o := Signup(tenants, users, body, env);
            o.reply.SignupOk? ==>
              && |o.users| == |users| + 1
              && var u := o.users[|users|];
                 o.reply.token == Token(Claims(u.id, u.tenantId, u.role), env.jwtSecret.value, "15m")
                 && o.reply.tenantId == u.tenantId && o.reply.role == u.role
    ensures var o := Signup(tenants, users, body, env);
            (env.jwtSecret.None? || env.jwtSecret == Some("")) ==> !o.reply.SignupOk?
  {
  }

  /** The auth tables, as sign-up changes them. */
  class AuthStore {
    var tenants: seq<Tenant>
    var users: seq<UserRow>

    constructor ()
      ensures tenants == [] && users == []
    {
      tenants := [];
      users := [];
    }

    /** `POST /auth/signup`: the tables end as `Signup` says. */
    method SignupRequest(body: Body, env: SignupEnv) returns (reply: AuthReply)
      modifies this
      ensures var o := Signup(old(tenants), old(users), body, env);
              tenants == o.tenants && users == o.users && reply == o.reply
    {
      var email := Field(body, "email");
      var password := Field(body, "password");
      var signupType := Field(body, "signupType");
      if !Truthy(email) || !Truthy(password) || !Truthy(signupType) {
        return AuthRefused(400, "Missing fields");
      }
      if env.hash.None? {
        return SignupFailed;
      }
      var tenantId := Undefined;
      var role := "user";
      if signupType == Str("admin") {
        var tenantName := Field(body, "tenantName");
        if !Truthy(tenantName) {
          return AuthRefused(400, "Tenant name required");
        }
        if env.tenantInsert.None? {
          return SignupFailed;
        }
        tenants := tenants + [Tenant(env.tenantInsert.value, tenantName)];
        tenantId := Str(env.tenantInsert.value);
        role := "admin";
      }
      if signupType == Str("user") {
        var orgId := Field(body, "orgId");
        if !Truthy(orgId) {
          return AuthRefused(400, "Missing orgId");
        }
        if !env.tenantLookupOk {
          return SignupFailed;
        }
        if !TenantExists(tenants, orgId) {
          return AuthRefused(400, "Invalid organization");
        }
        tenantId := orgId;
        role := "user";
      }
      if env.userInsert.None? {
        return SignupFailed;
      }
      var userId := env.userInsert.value;
      users := users + [UserRow(userId, email, env.hash.value, tenantId, role)];
      if env.jwtSecret.None? || env.jwtSecret.value == "" {
        return SignupFailed;
      }
      reply := SignupOk(Token(Claims(userId, tenantId, role), env.jwtSecret.value, "15m"), tenantId, role);
    }
  }

  /*--------------------------------- login ---------------------------------*/

  /** `SELECT ... FROM users WHERE email = $1`, first row: the earliest user with that email. */
  function FindUser(users: seq<UserRow>, email: JsValue): (u: Option<UserRow>)
    ensures u.Some? <==> exists i :: 0 <= i < |users| && users[i].email == email
    ensures u.Some? ==> exists i :: 0 <= i < |users| && users[i] == u.value
                                   && users[i].email == email && forall j :: 0 <= j < i ==> users[j].email != email
  {
    if users == [] then None
    else if users[0].email == email then Some(users[0])
    else
      var u := FindUser(users[1..], email);
      assert forall i :: 1 <= i < |users| ==> users[i] == users[1..][i - 1];
      if u.Some? then
        ghost var i :| 0 <= i < |users[1..]| && users[1..][i] == u.value && users[1..][i].email == email
                       && forall j :: 0 <= j < i ==> users[1..][j].email != email;
        assert users[i + 1] == u.value;
        u
      else
        u
  }

  /** The secret login signs with: `JWT_SECRET`, or `dev_secret` when it is unset or empty. */
  function LoginSecret(jwtSecret: Option<string>): string {
    if jwtSecret.Some? && jwtSecret.value != "" then jwtSecret.value else "dev_secret"
  }

  /**
   * `POST /auth/login`, with `lookupOk` telling whether the users SELECT ran
   * (false when it throws) and `compare` as `bcrypt.compare` (None when it
   * throws). Login reads the users table and changes nothing.
   */
  function Login(users: seq<UserRow>, body: Body, lookupOk: bool, compare: (JsValue, string) -> Option<bool>,
                 jwtSecret: Option<string>): (reply: AuthReply)
    ensures !lookupOk ==> reply == AuthRefused(500, "Login failed")
    ensures reply.LoginOk? <==>
              lookupOk && exists u :: FindUser(users, Field(body, "email")) == Some(u) && compare(Field(body, "password"), u.passwordHash) == Some(true)
    ensures reply.LoginOk? ==>
              var u := FindUser(users, Field(body, "email")).value;
              reply.token == Token(Claims(u.id, u.tenantId, u.role), LoginSecret(jwtSecret), "7d")
    ensures var u := FindUser(users, Field(body, "email"));
            lookupOk && u.Some? && compare(Field(body, "password"), u.value.passwordHash).None? ==>
              reply == AuthRefused(500, "Login failed")
    ensures reply.AuthRefused? ==> reply in {AuthRefused(401, "Invalid credentials"), AuthRefused(500, "Login failed")}
  {
    if !lookupOk then AuthRefused(500, "Login failed")
    else
    match FindUser(users, Field(body, "email"))
    case None => AuthRefused(401, "Invalid credentials")
    case Some(u) =>
      match compare(Field(body, "password"), u.passwordHash)
      case None => AuthRefused(500, "Login failed")
      case Some(false) => AuthRefused(401, "Invalid credentials")
      case Some(true) => LoginOk(Token(Claims(u.id, u.tenantId, u.role), LoginSecret(jwtSecret), "7d"))
  }

  /** An unknown email and a wrong password get the very same answer, so the reply does not reveal which emails exist. */
  lemma LoginDoesNotRevealEmails(users: seq<UserRow>, body: Body, compare: (JsValue, string) -> Option<bool>,
                                 jwtSecret: Option<string>)
    ensures FindUser(users, Field(body, "email")).None? ==>
              Login(users, body, true, compare, jwtSecret) == AuthRefused(401, "Invalid credentials")
    ensures var u := FindUser(users, Field(body, "email"));
            u.Some? && compare(Field(body, "password"), u.value.passwordHash) == Some(false) ==>
              Login(users, body, true, compare, jwtSecret) == AuthRefused(401, "Invalid credentials")
  {
  }

  /**
   * A user who has just signed up can log in with the same password (when
   * bcrypt accepts it and no earlier row has that email), and gets a token
   * with the same claims as the sign-up token, valid for 7 days instead of
   * 15 minutes.
   */
  lemma SignupThenLogin(tenants: seq<Tenant>, users: seq<UserRow>, body: Body, env: SignupEnv,
                        compare: (JsValue, string) -> Option<bool>)
    requires Signup(tenants, users, body, env).reply.SignupOk?
    requires forall i :: 0 <= i < |users| ==> users[i].email != Field(body, "email")
    requires compare(Field(body, "password"), env.hash.value) == Some(true)
    ensures var o := Signup(tenants, users, body, env);
            var l := Login(o.users, body, true, compare, env.jwtSecret);
            l.LoginOk? && l.token.claims == o.reply.token.claims && l.token.expiresIn == "7d"
            && l.token.secret == o.reply.token.secret
  {
    var o := Signup(tenants, users, body, env);
    var u := o.users[|users|];
    assert o.users == users + [u];
    assert u.email == Field(body, "email") && u.passwordHash == env.hash.value;
    assert FindUser(o.users, Field(body, "email")) == Some(u) by {
      FindLast(users, u, Field(body, "email"));
    }
  }

  lemma {:induction false} FindLast(users: seq<UserRow>, u: UserRow, email: JsValue)
    requires u.email == email
    requires forall i :: 0 <= i < |users| ==> users[i].email != email
    ensures FindUser(users + [u], email) == Some(u)
    decreases |users|
  {
    if users != [] {
      assert (users + [u])[1..] == users[1..] + [u];
      FindLast(users[1..], u, email);
    }
  }
}
