/** The REST handlers of the account service (`authController`).

    They do what the GraphQL mutations do, but answer with an HTTP status:
    400/401/403/404 for the refusals they check themselves, and 500 with
    the fixed message "Internal server error" for anything that throws (a
    database failure, a Sequelize validation error, a token that cannot be
    signed, a request without the authenticated user the route's middleware
    should have put on it). `caller` is `req.user.id`, absent when that
    middleware did not run. */
module AuthController {
  import opened Common
  import opened Crypto
  import opened UserModel
  import opened UserTable
  import opened ServerConfig
  import opened Requests
  import opened Resolvers

  datatype Reply = Reply(status: nat, body: Response)

  /** The table and the reply after a handler ran. */
  datatype Handled = Handled(reply: Reply, rows: seq<User>, clock: nat)

  const InternalError := Reply(500, Failure("Internal server error"))

  /** The end of a handler that writes and then signs a token. */
  function TokenReply(saved: Result<User, DbError>, env: Env, now: nat, status: nat, message: string): Reply {
    match saved
    case Err(_) => InternalError
    case Ok(u) =>
      match GenerateToken(env, u.id, now)
      case Err(_) => InternalError
      case Ok(t) => Reply(status, Success(message, AuthData(PublicProfile(u), t)))
  }

  /** The common tail of both registrations. */
  function RegisterHandled(rows: seq<User>, clock: nat, outage: Option<string>, isEmail: string -> bool,
                           env: Env, d: Draft, salt: nat, now: nat, message: string): Handled
  {
    if outage.Some? then Handled(InternalError, rows, clock)
    else if IndexOfEmail(rows, d.email).Some? then Handled(Reply(400, Failure(UserExists)), rows, clock)
    else
      var w := CreateSpec(rows, clock, outage, isEmail, d, salt);
      Handled(TokenReply(w.result, env, now, 201, message), w.rows, w.clock)
  }

  function RegisterCustomerHandled(rows: seq<User>, clock: nat, outage: Option<string>, isEmail: string -> bool,
                                   env: Env, body: CustomerInput, salt: nat, now: nat): Handled
  {
    RegisterHandled(rows, clock, outage, isEmail, env, CustomerDraft(body), salt, now, "Customer registered successfully")
  }

  // ---------------------------------------------------------------- the admin code test

  /** JavaScript's `a !== b` between a body field and an environment
      variable (`undefined` when unset). */
  predicate StrictlyDiffers(field: Input, variable: Option<string>) {
    match field
    case Undefined => variable.Some?
    case Null => true
    case Str(s) => variable != Some(s)
  }

  /** The guard of the admin registration handler as written: `!==` binds
      tighter than `||`, so the test reads
      `(adminCode !== ADMIN_REGISTRATION_CODE) || "ADMIN123"`, and the
      right operand is a non-empty string. */
  predicate AdminCodeRejectedAsWritten(adminCode: Input, env: Env) {
    StrictlyDiffers(adminCode, env.adminRegistrationCode) || DefaultAdminCode != ""
  }

  /** The guard as written rejects every request, the configured code included. */
  lemma AdminCodeAlwaysRejected(adminCode: Input, env: Env)
    ensures AdminCodeRejectedAsWritten(adminCode, env)
  {
  }

  /** The guard as intended, the one the GraphQL resolver has:
      `adminCode !== (ADMIN_REGISTRATION_CODE || "ADMIN123")`. */
  predicate AdminCodeRejected(adminCode: Input, env: Env) {
    adminCode != Str(EffectiveAdminCode(env))
  }

  /** The intended guard accepts exactly the effective code. */
  lemma AdminCodeRejectedExactlyWrong(adminCode: Input, env: Env)
    ensures !AdminCodeRejected(adminCode, env) <==> adminCode == Str(EffectiveAdminCode(env))
    ensures !AdminCodeRejected(Str(EffectiveAdminCode(env)), env)
    ensures env.adminRegistrationCode.None? ==> !AdminCodeRejected(Str(DefaultAdminCode), env)
  {
  }

  /** `registerAdmin` as written. */
  function RegisterAdminAsWritten(rows: seq<User>, clock: nat, outage: Option<string>, isEmail: string -> bool,
                                  env: Env, body: AdminInput, salt: nat, now: nat): Handled
  {
    if AdminCodeRejectedAsWritten(body.adminCode, env) then Handled(Reply(403, Failure(InvalidAdminCode)), rows, clock)
    else RegisterHandled(rows, clock, outage, isEmail, env, AdminDraft(body), salt, now, "Admin registered successfully")
  }

  /** As written, every REST admin registration is refused with 403 and
      creates nothing, even with the configured code. */
  lemma RegisterAdminAsWrittenAlwaysForbidden(rows: seq<User>, clock: nat, outage: Option<string>, isEmail: string -> bool,
                                              env: Env, body: AdminInput, salt: nat, now: nat)
    ensures RegisterAdminAsWritten(rows, clock, outage, isEmail, env, body, salt, now)
            == Handled(Reply(403, Failure(InvalidAdminCode)), rows, clock)
  {
    AdminCodeAlwaysRejected(body.adminCode, env);
  }

  /** `registerAdmin` with the intended guard. */
  function RegisterAdminHandled(rows: seq<User>, clock: nat, outage: Option<string>, isEmail: string -> bool,
                                env: Env, body: AdminInput, salt: nat, now: nat): Handled
  {
    if AdminCodeRejected(body.adminCode, env) then Handled(Reply(403, Failure(InvalidAdminCode)), rows, clock)
    else RegisterHandled(rows, clock, outage, isEmail, env, AdminDraft(body), salt, now, "Admin registered successfully")
  }

  /** With the intended guard, the right code gets past it, and a new,
      valid admin is then registered with 201. */
  lemma RegisterAdminHandledAdmits(rows: seq<User>, clock: nat, isEmail: string -> bool,
                                   env: Env, body: AdminInput, salt: nat, now: nat)
    requires body.adminCode == Str(EffectiveAdminCode(env)) && CanSign(env)
    requires forall i :: 0 <= i < |rows| ==> rows[i].email != body.email
    requires CreateViolations(AdminDraft(body), isEmail) == []
    ensures var h := RegisterAdminHandled(rows, clock, None, isEmail, env, body, salt, now);
      && h.reply.status == 201
      && |h.rows| == |rows| + 1 && h.rows[..|rows|] == rows && h.rows[|rows|].role == Admin
  {
    CreateSpecOutcome(rows, clock, None, isEmail, AdminDraft(body), salt, "");
    var w := CreateSpec(rows, clock, None, isEmail, AdminDraft(body), salt);
    assert w.rows[..|rows|] == rows;
  }

  // ---------------------------------------------------------------- login and account

  function LoginHandled(rows: seq<User>, clock: nat, outage: Option<string>, env: Env, body: LoginInput, now: nat): Handled {
    if outage.Some? then Handled(InternalError, rows, clock)
    else
      match IndexOfEmail(rows, body.email)
      case None => Handled(Reply(401, Failure(InvalidCredentials)), rows, clock)
      case Some(k) =>
        if !rows[k].isActive then Handled(Reply(401, Failure(AccountDeactivated)), rows, clock)
        else if !ComparePassword(rows[k], body.password) then Handled(Reply(401, Failure(InvalidCredentials)), rows, clock)
        else
          var w := UpdateSpec(rows, clock, outage, k, LastLoginPatch(now), 0);
          Handled(TokenReply(w.result, env, now, 200, "Login successful"), w.rows, w.clock)
  }

  /** `User.findByPk(req.user.id)` and the `!user` check, with a missing
      `req.user` or an unreachable database throwing. */
  function FindCaller(rows: seq<User>, outage: Option<string>, caller: Option<nat>): (r: Result<nat, Reply>)
    ensures r.Ok? ==> caller.Some? && r.value < |rows| && rows[r.value].id == caller.value
    ensures r.Ok? ==> forall i :: 0 <= i < r.value ==> rows[i].id != caller.value
    ensures r.Err? ==> r.error == InternalError || r.error == Reply(404, Failure(UserNotFound))
    ensures r == Err(InternalError) <==> caller.None? || outage.Some?
    ensures r == Err(Reply(404, Failure(UserNotFound))) <==>
      caller.Some? && outage.None? && forall i :: 0 <= i < |rows| ==> rows[i].id != caller.value
  {
    if caller.None? || outage.Some? then Err(InternalError)
    else
      match IndexOfId(rows, caller.value)
      case None => Err(Reply(404, Failure(UserNotFound)))
      case Some(k) => Ok(k)
  }

  function ChangePasswordHandled(rows: seq<User>, clock: nat, outage: Option<string>, caller: Option<nat>,
                                 body: PasswordInput, salt: nat): Handled
  {
    match FindCaller(rows, outage, caller)
    case Err(reply) => Handled(reply, rows, clock)
    case Ok(k) =>
      if !ComparePassword(rows[k], body.currentPassword) then Handled(Reply(400, Failure(WrongCurrentPassword)), rows, clock)
      else
        var w := UpdateSpec(rows, clock, outage, k, PasswordPatch(body.newPassword), salt);
        Handled(if w.result.Ok? then Reply(200, Success("Password changed successfully", NoData)) else InternalError,
                w.rows, w.clock)
  }

  /** `getProfile` only reads. */
  function GetProfile(rows: seq<User>, outage: Option<string>, caller: Option<nat>): Reply {
    match FindCaller(rows, outage, caller)
    case Err(reply) => reply
    case Ok(k) => Reply(200, Response(true, None, ProfileData(PublicProfile(rows[k]))))
  }

  function UpdateProfileHandled(rows: seq<User>, clock: nat, outage: Option<string>, caller: Option<nat>,
                                body: ProfileInput): Handled
  {
    match FindCaller(rows, outage, caller)
    case Err(reply) => Handled(reply, rows, clock)
    case Ok(k) =>
      var w := UpdateSpec(rows, clock, outage, k, ProfilePatch(body), 0);
      Handled(if w.result.Ok? then Reply(200, Success("Profile updated successfully", ProfileData(PublicProfile(w.result.value))))
              else InternalError,
              w.rows, w.clock)
  }

  // ---------------------------------------------------------------- properties

  /** `registerCustomer`: an e-mail already present gives 400 and changes
      nothing; otherwise the handler answers 201 exactly when the GraphQL
      mutation succeeds, writes what it writes, and answers 500 with the
      fixed message whenever that mutation reports an error. */
  lemma RegisterCustomerHandledOutcome(rows: seq<User>, clock: nat, outage: Option<string>, isEmail: string -> bool,
                                       env: Env, body: CustomerInput, salt: nat, now: nat)
    ensures var h := RegisterCustomerHandled(rows, clock, outage, isEmail, env, body, salt, now);
      var g := RegisterCustomerSpec(rows, clock, outage, isEmail, env, body, salt, now);
      && h.reply.status in {201, 400, 500}
      && (outage.None? && (exists i :: 0 <= i < |rows| && rows[i].email == body.email) ==>
            h == Handled(Reply(400, Failure(UserExists)), rows, clock))
      && h.rows == g.rows && h.clock == g.clock
      && (h.reply.status == 201 <==> g.response.success)
      && (h.reply.status == 201 ==> h.reply.body == g.response)
      && (h.reply.status == 500 ==> h.reply == InternalError)
  {
  }

  /** A GraphQL reply that reports one of `jwt.sign`'s errors. */
  predicate SigningFailed(r: Response) {
    r.message in {Some(NoSecretMessage), Some(ExpiresInTypeMessage), Some(ExpiresInTimespanMessage)}
  }

  /** `login` agrees with the GraphQL mutation: the same write, 200 with
      the same body exactly when that succeeds, 401 with the same refusal
      when it fails without a write, and the 500 reply otherwise. */
  lemma LoginHandledOutcome(rows: seq<User>, clock: nat, env: Env, body: LoginInput, now: nat)
    ensures var h := LoginHandled(rows, clock, None, env, body, now);
      var g := LoginSpec(rows, clock, None, env, body, now);
      && h.rows == g.rows && h.clock == g.clock
      && (h.reply.status == 200 <==> g.response.success)
      && (h.reply.status == 200 ==> h.reply.body == g.response)
      && (h.reply.status == 401 <==> !g.response.success && g.rows == rows && g.clock == clock && !SigningFailed(g.response))
      && (h.reply.status == 401 ==> h.reply.body == g.response && h.rows == rows)
      && (h.reply.status != 200 && h.reply.status != 401 ==> h.reply == InternalError)
  {
    var f := IndexOfEmail(rows, body.email);
    if f.Some? {
      var k := f.value;
      LastLoginPatchWritesOnlyLastLogin(rows[k], now, 0, clock);
    }
  }

  /** `login`: 401 with one message for an unknown e-mail and for a wrong
      password, and 401 "Account is deactivated" before the password is
      looked at; none of them writes. */
  lemma LoginHandledRefusals(rows: seq<User>, clock: nat, isEmail: string -> bool, env: Env, body: LoginInput, now: nat)
    requires WellFormed(rows, clock, isEmail)
    ensures var h := LoginHandled(rows, clock, None, env, body, now);
      && ((forall i :: 0 <= i < |rows| ==> rows[i].email != body.email) ==>
            h == Handled(Reply(401, Failure(InvalidCredentials)), rows, clock))
      && (forall k :: 0 <= k < |rows| && rows[k].email == body.email && !rows[k].isActive ==>
            h == Handled(Reply(401, Failure(AccountDeactivated)), rows, clock))
      && (forall k :: 0 <= k < |rows| && rows[k].email == body.email && rows[k].isActive
                       && !ComparePassword(rows[k], body.password) ==>
            h == Handled(Reply(401, Failure(InvalidCredentials)), rows, clock))
  {
    var f := IndexOfEmail(rows, body.email);
    forall k | 0 <= k < |rows| && rows[k].email == body.email
      ensures f == Some(k)
    {
      assert f.Some? && rows[f.value].email == rows[k].email;
    }
  }

  /** `changePassword`: a missing user gives 404, a current password that
      does not verify gives 400, both writing nothing; 200 means the row
      now accepts exactly the new password and nothing else changed. */
  lemma ChangePasswordHandledOutcome(rows: seq<User>, clock: nat, outage: Option<string>, caller: Option<nat>,
                                     body: PasswordInput, salt: nat, candidate: string)
    ensures var h := ChangePasswordHandled(rows, clock, outage, caller, body, salt);
      && h.reply.status in {200, 400, 404, 500}
      && (h.reply.status != 200 ==> h.rows == rows && h.clock == clock)
      && (h.reply.status == 404 <==> caller.Some? && outage.None? && forall i :: 0 <= i < |rows| ==> rows[i].id != caller.value)
      && (h.reply.status == 400 ==> h.reply.body == Failure(WrongCurrentPassword))
      && (forall k :: FindCaller(rows, outage, caller) == Ok(k) && !ComparePassword(rows[k], body.currentPassword) ==>
            h.reply == Reply(400, Failure(WrongCurrentPassword)))
      && (h.reply.status == 200 ==>
            var k := FindCaller(rows, outage, caller).value;
            && h.rows == rows[k := h.rows[k]]
            && h.rows[k] == rows[k].(password := h.rows[k].password, updatedAt := clock)
            && (ComparePassword(h.rows[k], candidate) <==> candidate == body.newPassword))
      && (h.reply.status == 500 ==> h.reply == InternalError)
  {
    var f := FindCaller(rows, outage, caller);
    if f.Ok? {
      PasswordPatchWritesOnlyPassword(rows[f.value], body.newPassword, salt, clock, candidate);
    }
  }

  /** `getProfile`: 500 without an authenticated caller or a database, 404
      exactly when no row has the caller's id, and otherwise 200 with that
      row's public profile. */
  lemma GetProfileOutcome(rows: seq<User>, outage: Option<string>, caller: Option<nat>)
    requires IdsUnique(rows)
    ensures GetProfile(rows, outage, caller).status in {200, 404, 500}
    ensures caller.None? || outage.Some? ==> GetProfile(rows, outage, caller) == InternalError
    ensures caller.Some? && outage.None? && (forall i :: 0 <= i < |rows| ==> rows[i].id != caller.value) ==>
      GetProfile(rows, outage, caller) == Reply(404, Failure(UserNotFound))
    ensures forall k :: 0 <= k < |rows| && caller == Some(rows[k].id) && outage.None? ==>
      GetProfile(rows, outage, caller) == Reply(200, Response(true, None, ProfileData(PublicProfile(rows[k]))))
  {
    forall k | 0 <= k < |rows| && caller == Some(rows[k].id) && outage.None?
      ensures GetProfile(rows, outage, caller) == Reply(200, Response(true, None, ProfileData(PublicProfile(rows[k]))))
    {
      var r := FindCaller(rows, outage, caller);
      assert r.Ok? && rows[r.value].id == rows[k].id;
    }
  }

  /** `updateProfile`: 500 without an authenticated caller or a database and
      404 exactly when no row has the caller's id, both writing nothing;
      otherwise the handler writes what the GraphQL `updateProfile` writes,
      only the supplied profile fields of the caller's row, and answers 200
      exactly when that succeeds. */
  lemma UpdateProfileHandledOutcome(rows: seq<User>, clock: nat, outage: Option<string>, caller: Option<nat>,
                                    body: ProfileInput)
    requires IdsUnique(rows)
    ensures var h := UpdateProfileHandled(rows, clock, outage, caller, body);
      && h.reply.status in {200, 404, 500}
      && (caller.None? || outage.Some? ==> h == Handled(InternalError, rows, clock))
      && (h.reply.status == 404 <==>
            caller.Some? && outage.None? && forall i :: 0 <= i < |rows| ==> rows[i].id != caller.value)
      && (h.reply.status == 404 ==> h == Handled(Reply(404, Failure(UserNotFound)), rows, clock))
      && (h.reply.status == 500 ==> h.reply == InternalError)
    ensures forall k :: 0 <= k < |rows| && caller == Some(rows[k].id) && outage.None? ==>
      var h := UpdateProfileHandled(rows, clock, outage, caller, body);
      var g := SaveProfile(rows, clock, None, k, body, "Profile updated successfully");
      && h.rows == g.rows && h.clock == g.clock
      && (h.reply.status == 200 <==> g.response.success)
      && (h.reply.status == 200 ==> h.reply.body == g.response)
      && (h.reply.status != 200 ==> h.reply == InternalError)
  {
    forall k | 0 <= k < |rows| && caller == Some(rows[k].id) && outage.None?
      ensures FindCaller(rows, outage, caller) == Ok(k)
    {
      var r := FindCaller(rows, outage, caller);
      assert r.Ok? && rows[r.value].id == rows[k].id;
    }
  }

  // ---------------------------------------------------------------- the model binding as written

  /** As written, the controller destructures `{ User }` from a module that
      exports `user`, so every `User.findOne`, `User.create` and
      `User.findByPk` throws a ReferenceError. Each handler that gets to the
      table therefore answers 500 and writes nothing; `registerAdmin` is
      refused with 403 before it gets there. */
  lemma HandlersAsWrittenAnswer500(rows: seq<User>, clock: nat, isEmail: string -> bool, env: Env, caller: Option<nat>,
                                   customer: CustomerInput, admin: AdminInput, login: LoginInput,
                                   password: PasswordInput, profile: ProfileInput, salt: nat, now: nat)
    ensures var o := Some(UnboundModelError);
      && RegisterCustomerHandled(rows, clock, o, isEmail, env, customer, salt, now) == Handled(InternalError, rows, clock)
      && RegisterAdminAsWritten(rows, clock, o, isEmail, env, admin, salt, now)
         == Handled(Reply(403, Failure(InvalidAdminCode)), rows, clock)
      && LoginHandled(rows, clock, o, env, login, now) == Handled(InternalError, rows, clock)
      && GetProfile(rows, o, caller) == InternalError
      && ChangePasswordHandled(rows, clock, o, caller, password, salt) == Handled(InternalError, rows, clock)
      && UpdateProfileHandled(rows, clock, o, caller, profile) == Handled(InternalError, rows, clock)
  {
    RegisterAdminAsWrittenAlwaysForbidden(rows, clock, Some(UnboundModelError), isEmail, env, admin, salt, now);
  }

  /** A customer registration that the bound model answers with 201 and a
      new row is answered with 500, and no row, as written. */
  lemma RegisterCustomerAsWrittenFails(rows: seq<User>, clock: nat, isEmail: string -> bool, env: Env,
                                       body: CustomerInput, salt: nat, now: nat)
    requires CanSign(env)
    requires forall i :: 0 <= i < |rows| ==> rows[i].email != body.email
    requires CreateViolations(CustomerDraft(body), isEmail) == []
    ensures RegisterCustomerHandled(rows, clock, Some(UnboundModelError), isEmail, env, body, salt, now)
            == Handled(InternalError, rows, clock)
    ensures var h := RegisterCustomerHandled(rows, clock, None, isEmail, env, body, salt, now);
      h.reply.status == 201 && |h.rows| == |rows| + 1
  {
    CreateSpecOutcome(rows, clock, None, isEmail, CustomerDraft(body), salt, "");
    GenerateTokenVerifies(env, clock, now, 0);
  }

  // ---------------------------------------------------------------- handler methods

  method RegisterCustomer(db: Table, env: Env, body: CustomerInput, salt: nat, now: nat) returns (reply: Reply)
    requires db.Valid()
    modifies db
    ensures db.Valid()
    ensures Handled(reply, db.rows, db.clock)
            == RegisterCustomerHandled(old(db.rows), old(db.clock), db.outage, db.isEmail, env, body, salt, now)
  {
    if db.outage.Some? {
      return InternalError;
    }
    if IndexOfEmail(db.rows, body.email).Some? {
      return Reply(400, Failure(UserExists));
    }
    var created := db.Create(CustomerDraft(body), salt);
    reply := TokenReply(created, env, now, 201, "Customer registered successfully");
  }

  /** `registerAdmin` with the intended guard. */
  method RegisterAdmin(db: Table, env: Env, body: AdminInput, salt: nat, now: nat) returns (reply: Reply)
    requires db.Valid()
    modifies db
    ensures db.Valid()
    ensures Handled(reply, db.rows, db.clock)
            == RegisterAdminHandled(old(db.rows), old(db.clock), db.outage, db.isEmail, env, body, salt, now)
  {
    if AdminCodeRejected(body.adminCode, env) {
      return Reply(403, Failure(InvalidAdminCode));
    }
    if db.outage.Some? {
      return InternalError;
    }
    if IndexOfEmail(db.rows, body.email).Some? {
      return Reply(400, Failure(UserExists));
    }
    var created := db.Create(AdminDraft(body), salt);
    reply := TokenReply(created, env, now, 201, "Admin registered successfully");
  }

  method Login(db: Table, env: Env, body: LoginInput, now: nat) returns (reply: Reply)
    requires db.Valid()
    modifies db
    ensures db.Valid()
    ensures Handled(reply, db.rows, db.clock) == LoginHandled(old(db.rows), old(db.clock), db.outage, env, body, now)
  {
    if db.outage.Some? {
      return InternalError;
    }
    var found := IndexOfEmail(db.rows, body.email);
    if found.None? {
      return Reply(401, Failure(InvalidCredentials));
    }
    var user := db.rows[found.value];
    if !user.isActive {
      return Reply(401, Failure(AccountDeactivated));
    }
    if !ComparePassword(user, body.password) {
      return Reply(401, Failure(InvalidCredentials));
    }
    WellFormedIdsUnique(db.rows, db.clock, db.isEmail);
    var saved := db.Update(user, LastLoginPatch(now), 0);
    reply := TokenReply(saved, env, now, 200, "Login successful");
  }

  method ChangePassword(db: Table, caller: Option<nat>, body: PasswordInput, salt: nat) returns (reply: Reply)
    requires db.Valid()
    modifies db
    ensures db.Valid()
    ensures Handled(reply, db.rows, db.clock) == ChangePasswordHandled(old(db.rows), old(db.clock), db.outage, caller, body, salt)
  {
    var found := FindCaller(db.rows, db.outage, caller);
    if found.Err? {
      return found.error;
    }
    var user := db.rows[found.value];
    if !ComparePassword(user, body.currentPassword) {
      return Reply(400, Failure(WrongCurrentPassword));
    }
    WellFormedIdsUnique(db.rows, db.clock, db.isEmail);
    var saved := db.Update(user, PasswordPatch(body.newPassword), salt);
    reply := if saved.Ok? then Reply(200, Success("Password changed successfully", NoData)) else InternalError;
  }

  method UpdateProfile(db: Table, caller: Option<nat>, body: ProfileInput) returns (reply: Reply)
    requires db.Valid()
    modifies db
    ensures db.Valid()
    ensures Handled(reply, db.rows, db.clock) == UpdateProfileHandled(old(db.rows), old(db.clock), db.outage, caller, body)
  {
    var found := FindCaller(db.rows, db.outage, caller);
    if found.Err? {
      return found.error;
    }
    WellFormedIdsUnique(db.rows, db.clock, db.isEmail);
    var saved := db.Update(db.rows[found.value], ProfilePatch(body), 0);
    reply := if saved.Ok? then Reply(200, Success("Profile updated successfully", ProfileData(PublicProfile(saved.value))))
             else InternalError;
  }
}
