/** The GraphQL resolvers of the account service.

    Queries read the table and are functions. Each mutation is a method on
    the `Table` that is proved equal to a specification function returning
    the response together with the table after the call; the properties of
    the mutations are lemmas about those functions. `context` is what
    `graphqlAuth` resolved for the request. */
module Resolvers {
  import opened Common
  import opened Crypto
  import opened UserModel
  import opened UserTable
  import opened ServerConfig
  import opened Requests

  datatype Payload =
    | NoData
    | ProfileData(user: PublicUser)
    | AuthData(user: PublicUser, token: string)
    | OrderData(order: Order)

  /** `{ success, message, data }`. */
  datatype Response = Response(success: bool, message: Option<string>, data: Payload)

  /** What every `catch (error)` returns. */
  function Failure(message: string): Response {
    Response(false, Some(message), NoData)
  }

  function Success(message: string, data: Payload): Response {
    Response(true, Some(message), data)
  }

  const AuthenticationRequired := "Authentication required"
  const AdminAccessRequired := "Admin access required"
  const UserNotFound := "User not found"
  const UserExists := "User with this email already exists"
  const InvalidCredentials := "Invalid email or password"
  const AccountDeactivated := "Account is deactivated"
  const InvalidAdminCode := "Invalid admin registration code"
  const WrongCurrentPassword := "Current password is incorrect"

  // ---------------------------------------------------------------- guards

  /** `getUserFromContext`. */
  function GetUserFromContext(context: Option<PublicUser>): Result<PublicUser, string> {
    if context.None? then Err(AuthenticationRequired) else Ok(context.value)
  }

  /** `checkAdminRole`: the message it throws, if it throws. */
  function CheckAdminRole(user: PublicUser): Option<string> {
    if user.role != Admin then Some(AdminAccessRequired) else None
  }

  /** `getUserFromContext` followed by `checkAdminRole`. */
  function RequireAdmin(context: Option<PublicUser>): Result<PublicUser, string> {
    match GetUserFromContext(context)
    case Err(m) => Err(m)
    case Ok(u) => if CheckAdminRole(u).Some? then Err(CheckAdminRole(u).value) else Ok(u)
  }

  /** Only an authenticated admin passes; anonymous callers are told to
      authenticate, everyone else that admin access is required. */
  lemma RequireAdminCharacterized(context: Option<PublicUser>)
    ensures RequireAdmin(context).Ok? <==> context.Some? && context.value.role == Admin
    ensures RequireAdmin(context).Ok? ==> RequireAdmin(context).value == context.value
    ensures context.None? ==> RequireAdmin(context) == Err(AuthenticationRequired)
    ensures context.Some? && context.value.role != Admin ==> RequireAdmin(context) == Err(AdminAccessRequired)
  {
  }

  /** `User.findByPk(id)` followed by the `!user` check: the row's position. */
  function Lookup(rows: seq<User>, outage: Option<string>, id: nat): (r: Result<nat, string>)
    ensures r.Ok? ==> r.value < |rows| && rows[r.value].id == id
    ensures r.Ok? <==> outage.None? && exists i :: 0 <= i < |rows| && rows[i].id == id
  {
    if outage.Some? then Err(outage.value)
    else
      match IndexOfId(rows, id)
      case None => Err(UserNotFound)
      case Some(k) => Ok(k)
  }

  // ---------------------------------------------------------------- queries

  /** Query `me`. */
  function Me(context: Option<PublicUser>, rows: seq<User>, outage: Option<string>): Response {
    match GetUserFromContext(context)
    case Err(m) => Failure(m)
    case Ok(caller) =>
      match Lookup(rows, outage, caller.id)
      case Err(m) => Failure(m)
      case Ok(k) => Response(true, None, ProfileData(PublicProfile(rows[k])))
  }

  /** Query `getUser(id)`. */
  function GetUser(context: Option<PublicUser>, id: nat, rows: seq<User>, outage: Option<string>): Response {
    match RequireAdmin(context)
    case Err(m) => Failure(m)
    case Ok(_) =>
      match Lookup(rows, outage, id)
      case Err(m) => Failure(m)
      case Ok(k) => Response(true, None, ProfileData(PublicProfile(rows[k])))
  }

  const DefaultLimit: nat := 50
  const MaxLimit: nat := 100

  /** A GraphQL argument of type `Int`: left out, an explicit `null`, or a
      value. The schema accepts any integer, negative ones included. */
  datatype IntArg = Omitted | NullInt | IntValue(n: int)

  /** The number a destructured argument with a default stands for: the
      default applies only to an omitted argument. `null` stays `null`;
      `Math.min(null, 100)` is 0, and Sequelize writes no OFFSET for a
      `null` offset, so it counts as 0 in both places. */
  function ArgValue(a: IntArg, default: int): int {
    match a
    case Omitted => default
    case NullInt => 0
    case IntValue(n) => n
  }

  /** `Math.min(limit, 100)`. */
  function PageSize(limit: int): (n: int)
    ensures n <= MaxLimit && n <= limit && (n == limit || n == MaxLimit)
  {
    if limit < MaxLimit then limit else MaxLimit
  }

  function WithRole(rows: seq<User>, role: Option<Role>): seq<User> {
    if role.Some? then Filter(rows, (u: User) => u.role == role.value) else rows
  }

  /** `ORDER BY createdAt DESC OFFSET offset LIMIT n` over rows kept in
      creation order: position `i` of the page is the `offset + i`-th row
      counted from the newest. */
  function Page<A>(m: seq<A>, offset: nat, n: nat): (r: seq<A>)
    ensures |r| <= n && |r| <= |m|
    ensures forall i :: 0 <= i < |r| ==> offset + i < |m| && r[i] == m[|m| - 1 - (offset + i)]
  {
    Take(Drop(Reverse(m), offset), n)
  }

  /** `findAll({ where, limit: size, offset, order: [["createdAt", "DESC"]] })`. */
  function ListUsers(rows: seq<User>, role: Option<Role>, size: nat, offset: nat): seq<PublicUser> {
    Map(Page(WithRole(rows, role), offset, size), PublicProfile)
  }

  /** Query `getUsers(role, limit = 50, offset = 0)`; a failure is rethrown.
      A negative LIMIT or OFFSET reaches the database, which refuses it
      with the message `refusal`. */
  function GetUsers(context: Option<PublicUser>, role: Option<Role>, limit: IntArg, offset: IntArg,
                    rows: seq<User>, outage: Option<string>, refusal: string): Result<seq<PublicUser>, string>
  {
    match RequireAdmin(context)
    case Err(m) => Err(m)
    case Ok(_) =>
      var size := PageSize(ArgValue(limit, DefaultLimit));
      var skip := ArgValue(offset, 0);
      if outage.Some? then Err(outage.value)
      else if size < 0 || skip < 0 then Err(refusal)
      else Ok(ListUsers(rows, role, size, skip))
  }

  /** For an admin on a reachable database, `getUsers` answers with at most
      100 users, at most 50 when no limit is given and none for a `null`
      limit; it fails exactly when the limit or the offset is negative, and
      otherwise it is the page at that offset. */
  lemma GetUsersBounds(context: Option<PublicUser>, role: Option<Role>, limit: IntArg, offset: IntArg,
                       rows: seq<User>, refusal: string)
    requires context.Some? && context.value.role == Admin
    ensures var r := GetUsers(context, role, limit, offset, rows, None, refusal);
      && (r.Err? <==> (limit.IntValue? && limit.n < 0) || (offset.IntValue? && offset.n < 0))
      && (r.Err? ==> r.error == refusal)
      && (r.Ok? ==> |r.value| <= MaxLimit)
      && (r.Ok? && limit.Omitted? ==> |r.value| <= DefaultLimit)
      && (r.Ok? && limit.NullInt? ==> r.value == [])
      && (r.Ok? && limit.IntValue? ==> |r.value| <= limit.n)
      && (r.Ok? ==> r.value == ListUsers(rows, role, PageSize(ArgValue(limit, DefaultLimit)), ArgValue(offset, 0)))
  {
    RequireAdminCharacterized(context);
  }

  predicate CreatedAscending(rows: seq<User>) {
    forall i, j :: 0 <= i < j < |rows| ==> rows[i].createdAt < rows[j].createdAt
  }

  lemma {:induction false} FilterKeepsAscending(rows: seq<User>, p: User -> bool)
    requires CreatedAscending(rows)
    ensures CreatedAscending(Filter(rows, p))
    decreases |rows|
  {
    if rows != [] {
      FilterKeepsAscending(rows[1..], p);
      var rest := Filter(rows[1..], p);
      forall j | 0 <= j < |rest| ensures rows[0].createdAt < rest[j].createdAt {
        FilterSubset(rows[1..], p, j);
      }
    }
  }

  /** Every user on a page of `getUsers` has the requested role, when one
      is given, and is the public profile of a row of the table. */
  lemma ListUsersFromTable(rows: seq<User>, role: Option<Role>, size: nat, offset: nat)
    ensures var r := ListUsers(rows, role, size, offset);
      && |r| <= size
      && (forall i :: 0 <= i < |r| && role.Some? ==> r[i].role == role.value)
      && (forall i :: 0 <= i < |r| ==> exists u :: u in rows && r[i] == PublicProfile(u))
  {
    var m := WithRole(rows, role);
    var page := Page(m, offset, size);
    var r := ListUsers(rows, role, size, offset);
    forall i | 0 <= i < |r| ensures exists u :: u in rows && r[i] == PublicProfile(u) {
      var j := |m| - 1 - (offset + i);
      assert page[i] == m[j];
      if role.Some? {
        FilterSubset(rows, (u: User) => u.role == role.value, j);
      }
    }
  }

  /** A page of `getUsers` is ordered newest first. */
  lemma ListUsersNewestFirst(rows: seq<User>, clock: nat, isEmail: string -> bool, role: Option<Role>, size: nat, offset: nat)
    requires WellFormed(rows, clock, isEmail)
    ensures var r := ListUsers(rows, role, size, offset);
      forall i, j :: 0 <= i < j < |r| ==> r[i].createdAt > r[j].createdAt
  {
    var m := WithRole(rows, role);
    assert CreatedAscending(rows);
    if role.Some? {
      FilterKeepsAscending(rows, (u: User) => u.role == role.value);
    }
    assert CreatedAscending(m);
  }

  /** Without a role filter, the first page of a table that fits on it is
      the whole table, newest first. */
  lemma ListUsersWholeTable(rows: seq<User>, size: nat)
    requires |rows| <= size
    ensures ListUsers(rows, None, size, 0) == Map(Reverse(rows), PublicProfile)
  {
    assert Page(rows, 0, size) == Reverse(rows);
  }

  // ---------------------------------------------------------------- mutations

  /** The table and the response after a mutation. */
  datatype Outcome = Outcome(response: Response, rows: seq<User>, clock: nat)

  /** The end of `registerCustomer`, `registerAdmin` and `login`: the row
      that was written, its public profile and a fresh token. */
  function TokenResponse(saved: Result<User, DbError>, env: Env, now: nat, message: string): Response {
    match saved
    case Err(e) => Failure(ErrorMessage(e))
    case Ok(u) =>
      match GenerateToken(env, u.id, now)
      case Err(m) => Failure(m)
      case Ok(t) => Success(message, AuthData(PublicProfile(u), t))
  }

  /** The end of the other mutations: the message, with the saved row's
      public profile when the response type has one. */
  function SavedResponse(saved: Result<User, DbError>, message: string, withProfile: bool): Response {
    match saved
    case Err(e) => Failure(ErrorMessage(e))
    case Ok(u) => Success(message, if withProfile then ProfileData(PublicProfile(u)) else NoData)
  }

  /** The common tail of both registrations: the duplicate check, then
      `User.create` and a token for the new row. */
  function RegisterSpec(rows: seq<User>, clock: nat, outage: Option<string>, isEmail: string -> bool,
                        env: Env, d: Draft, salt: nat, now: nat, message: string): Outcome
  {
    if outage.Some? then Outcome(Failure(outage.value), rows, clock)
    else if IndexOfEmail(rows, d.email).Some? then Outcome(Failure(UserExists), rows, clock)
    else
      var w := CreateSpec(rows, clock, outage, isEmail, d, salt);
      Outcome(TokenResponse(w.result, env, now, message), w.rows, w.clock)
  }

  function RegisterCustomerSpec(rows: seq<User>, clock: nat, outage: Option<string>, isEmail: string -> bool,
                                env: Env, input: CustomerInput, salt: nat, now: nat): Outcome
  {
    RegisterSpec(rows, clock, outage, isEmail, env, CustomerDraft(input), salt, now, "Customer registered successfully")
  }

  /** The admin code is compared before anything is read. */
  function RegisterAdminSpec(rows: seq<User>, clock: nat, outage: Option<string>, isEmail: string -> bool,
                             env: Env, input: AdminInput, salt: nat, now: nat): Outcome
  {
    if input.adminCode != Str(EffectiveAdminCode(env)) then Outcome(Failure(InvalidAdminCode), rows, clock)
    else RegisterSpec(rows, clock, outage, isEmail, env, AdminDraft(input), salt, now, "Admin registered successfully")
  }

  function LoginSpec(rows: seq<User>, clock: nat, outage: Option<string>, env: Env, input: LoginInput, now: nat): Outcome {
    if outage.Some? then Outcome(Failure(outage.value), rows, clock)
    else
      match IndexOfEmail(rows, input.email)
      case None => Outcome(Failure(InvalidCredentials), rows, clock)
      case Some(k) =>
        if !rows[k].isActive then Outcome(Failure(AccountDeactivated), rows, clock)
        else if !ComparePassword(rows[k], input.password) then Outcome(Failure(InvalidCredentials), rows, clock)
        else
          var w := UpdateSpec(rows, clock, outage, k, LastLoginPatch(now), 0);
          Outcome(TokenResponse(w.result, env, now, "Login successful"), w.rows, w.clock)
  }

  function ChangePasswordSpec(rows: seq<User>, clock: nat, outage: Option<string>, context: Option<PublicUser>,
                              input: PasswordInput, salt: nat): Outcome
  {
    match GetUserFromContext(context)
    case Err(m) => Outcome(Failure(m), rows, clock)
    case Ok(caller) =>
      match Lookup(rows, outage, caller.id)
      case Err(m) => Outcome(Failure(m), rows, clock)
      case Ok(k) =>
        if !ComparePassword(rows[k], input.currentPassword) then Outcome(Failure(WrongCurrentPassword), rows, clock)
        else
          var w := UpdateSpec(rows, clock, outage, k, PasswordPatch(input.newPassword), salt);
          Outcome(SavedResponse(w.result, "Password changed successfully", false), w.rows, w.clock)
  }

  /** The common tail of `updateProfile` and `updateUser` on the row `rows[k]`. */
  function SaveProfile(rows: seq<User>, clock: nat, outage: Option<string>, k: nat, input: ProfileInput,
                       message: string): Outcome
    requires k < |rows|
  {
    var w := UpdateSpec(rows, clock, outage, k, ProfilePatch(input), 0);
    Outcome(SavedResponse(w.result, message, true), w.rows, w.clock)
  }

  function UpdateProfileSpec(rows: seq<User>, clock: nat, outage: Option<string>, context: Option<PublicUser>,
                             input: ProfileInput): Outcome
  {
    match GetUserFromContext(context)
    case Err(m) => Outcome(Failure(m), rows, clock)
    case Ok(caller) =>
      match Lookup(rows, outage, caller.id)
      case Err(m) => Outcome(Failure(m), rows, clock)
      case Ok(k) => SaveProfile(rows, clock, outage, k, input, "Profile updated successfully")
  }

  function UpdateUserSpec(rows: seq<User>, clock: nat, outage: Option<string>, context: Option<PublicUser>,
                          id: nat, input: ProfileInput): Outcome
  {
    match RequireAdmin(context)
    case Err(m) => Outcome(Failure(m), rows, clock)
    case Ok(_) =>
      match Lookup(rows, outage, id)
      case Err(m) => Outcome(Failure(m), rows, clock)
      case Ok(k) => SaveProfile(rows, clock, outage, k, input, "User updated successfully")
  }

  function ActivationMessage(active: bool): string {
    if active then "User activated successfully" else "User deactivated successfully"
  }

  /** `deactivateUser(id)` (`active` false) and `activateUser(id)` (`active` true). */
  function SetActiveSpec(rows: seq<User>, clock: nat, outage: Option<string>, context: Option<PublicUser>,
                         id: nat, active: bool): Outcome
  {
    match RequireAdmin(context)
    case Err(m) => Outcome(Failure(m), rows, clock)
    case Ok(_) =>
      match Lookup(rows, outage, id)
      case Err(m) => Outcome(Failure(m), rows, clock)
      case Ok(k) =>
        var w := UpdateSpec(rows, clock, outage, k, ActivePatch(active), 0);
        Outcome(SavedResponse(w.result, ActivationMessage(active), false), w.rows, w.clock)
  }

  // ---------------------------------------------------------------- properties of the mutations

  /** The admin-only operations refuse a caller who is not an authenticated
      admin with the guard's message and neither read nor write the table. */
  lemma AdminOnlyRejects(rows: seq<User>, clock: nat, outage: Option<string>, context: Option<PublicUser>,
                         id: nat, input: ProfileInput, role: Option<Role>, limit: IntArg, offset: IntArg,
                         refusal: string, active: bool)
    requires context.None? || context.value.role != Admin
    ensures var m := if context.None? then AuthenticationRequired else AdminAccessRequired;
      && GetUser(context, id, rows, outage) == Failure(m)
      && GetUsers(context, role, limit, offset, rows, outage, refusal) == Err(m)
      && UpdateUserSpec(rows, clock, outage, context, id, input) == Outcome(Failure(m), rows, clock)
      && SetActiveSpec(rows, clock, outage, context, id, active) == Outcome(Failure(m), rows, clock)
  {
    RequireAdminCharacterized(context);
  }

  /** The operations on the caller's own account refuse an anonymous caller
      and change nothing. */
  lemma SelfServiceRequiresAuthentication(rows: seq<User>, clock: nat, outage: Option<string>,
                                          password: PasswordInput, profile: ProfileInput, salt: nat)
    ensures Me(None, rows, outage) == Failure(AuthenticationRequired)
    ensures ChangePasswordSpec(rows, clock, outage, None, password, salt) == Outcome(Failure(AuthenticationRequired), rows, clock)
    ensures UpdateProfileSpec(rows, clock, outage, None, profile) == Outcome(Failure(AuthenticationRequired), rows, clock)
  {
  }

  /** Looking a row up by a key it holds finds that row, when keys are unique. */
  lemma LookupFinds(rows: seq<User>, k: nat)
    requires IdsUnique(rows) && k < |rows|
    ensures Lookup(rows, None, rows[k].id) == Ok(k)
  {
    var r := IndexOfId(rows, rows[k].id);
    assert r.Some? && rows[r.value].id == rows[k].id;
  }

  /** `me` answers an authenticated caller with the public profile of the
      caller's own row, and with "User not found" when the row is gone; an
      unreachable database answers with its message. */
  lemma MeAnswersCaller(rows: seq<User>, clock: nat, isEmail: string -> bool, outage: Option<string>, caller: PublicUser)
    requires WellFormed(rows, clock, isEmail)
    ensures outage.Some? ==> Me(Some(caller), rows, outage) == Failure(outage.value)
    ensures forall k :: 0 <= k < |rows| && rows[k].id == caller.id ==>
      Me(Some(caller), rows, None) == Response(true, None, ProfileData(PublicProfile(rows[k])))
    ensures (forall k :: 0 <= k < |rows| ==> rows[k].id != caller.id) ==>
      Me(Some(caller), rows, None) == Failure(UserNotFound)
  {
    WellFormedIdsUnique(rows, clock, isEmail);
    forall k | 0 <= k < |rows| && rows[k].id == caller.id
      ensures Me(Some(caller), rows, None) == Response(true, None, ProfileData(PublicProfile(rows[k])))
    {
      LookupFinds(rows, k);
    }
  }

  /** An admin's `getUser(id)` answers with the public profile of the row
      with that id, and with "User not found" when there is none. */
  lemma GetUserAnswersAdmin(rows: seq<User>, clock: nat, isEmail: string -> bool, context: Option<PublicUser>, id: nat)
    requires WellFormed(rows, clock, isEmail)
    requires context.Some? && context.value.role == Admin
    ensures forall k :: 0 <= k < |rows| && rows[k].id == id ==>
      GetUser(context, id, rows, None) == Response(true, None, ProfileData(PublicProfile(rows[k])))
    ensures (forall k :: 0 <= k < |rows| ==> rows[k].id != id) ==>
      GetUser(context, id, rows, None) == Failure(UserNotFound)
  {
    RequireAdminCharacterized(context);
    WellFormedIdsUnique(rows, clock, isEmail);
    forall k | 0 <= k < |rows| && rows[k].id == id
      ensures GetUser(context, id, rows, None) == Response(true, None, ProfileData(PublicProfile(rows[k])))
    {
      LookupFinds(rows, k);
    }
  }

  /** An admin's `deactivateUser`/`activateUser` on an existing user sets
      that user's `isActive` and nothing else (with a new update stamp), and
      writes nothing when the flag already has that value. */
  lemma SetActiveEffect(rows: seq<User>, clock: nat, context: Option<PublicUser>, k: nat, active: bool)
    requires IdsUnique(rows) && k < |rows|
    requires context.Some? && context.value.role == Admin
    ensures SetActiveSpec(rows, clock, None, context, rows[k].id, active) ==
      if rows[k].isActive == active then Outcome(Success(ActivationMessage(active), NoData), rows, clock)
      else Outcome(Success(ActivationMessage(active), NoData),
                   rows[k := rows[k].(isActive := active, updatedAt := clock)], clock + 1)
  {
    LookupFinds(rows, k);
    ActivePatchWritesOnlyFlag(rows[k], active, 0, clock);
    assert UpdateViolations(rows[k], ActivePatch(active)) == [];
  }

  /** Deactivating (or activating) twice is the same as doing it once. */
  lemma SetActiveIdempotent(rows: seq<User>, clock: nat, outage: Option<string>, context: Option<PublicUser>,
                            id: nat, active: bool)
    requires IdsUnique(rows)
    ensures var once := SetActiveSpec(rows, clock, outage, context, id, active);
      SetActiveSpec(once.rows, once.clock, outage, context, id, active) == once
  {
    var once := SetActiveSpec(rows, clock, outage, context, id, active);
    if RequireAdmin(context).Ok? && Lookup(rows, outage, id).Ok? {
      var k := Lookup(rows, outage, id).value;
      RequireAdminCharacterized(context);
      SetActiveEffect(rows, clock, context, k, active);
      assert |once.rows| == |rows|;
      assert once.rows[k].id == id && once.rows[k].isActive == active;
      assert IdsUnique(once.rows) by {
        forall i, j | 0 <= i < |once.rows| && 0 <= j < |once.rows| && once.rows[i].id == once.rows[j].id
          ensures i == j
        {
          assert once.rows[i].id == rows[i].id && once.rows[j].id == rows[j].id;
        }
      }
      LookupFinds(once.rows, k);
      SetActiveEffect(once.rows, once.clock, context, k, active);
    }
  }

  /** Registration (both kinds) refuses an e-mail already in the table,
      changing nothing, before it looks at the rest of the input. */
  lemma RegisterRefusesDuplicate(rows: seq<User>, clock: nat, isEmail: string -> bool, env: Env, d: Draft,
                                 salt: nat, now: nat, message: string, i: nat)
    requires i < |rows| && rows[i].email == d.email
    ensures RegisterSpec(rows, clock, None, isEmail, env, d, salt, now, message) == Outcome(Failure(UserExists), rows, clock)
  {
  }

  /** Registration succeeds exactly when the e-mail is new, the draft passes
      the model's validators and a token can be signed; it then appends one
      row holding the draft (and accepting exactly its password), returns
      its public profile and a token that verifies to its id until it
      expires. When it fails while the server can sign, nothing is written. */
  lemma RegisterOutcome(rows: seq<User>, clock: nat, outage: Option<string>, isEmail: string -> bool, env: Env,
                        d: Draft, salt: nat, now: nat, message: string, later: nat, candidate: string)
    ensures var o := RegisterSpec(rows, clock, outage, isEmail, env, d, salt, now, message);
      && (o.response.success <==>
            outage.None? && (forall i :: 0 <= i < |rows| ==> rows[i].email != d.email)
            && CreateViolations(d, isEmail) == [] && CanSign(env))
      && (!o.response.success && CanSign(env) ==> o.rows == rows && o.clock == clock)
      && (o.response.success ==>
            && |o.rows| == |rows| + 1 && o.rows[..|rows|] == rows && o.clock == clock + 1
            && var u := o.rows[|rows|];
               && u.email == d.email && u.role == d.role && u.firstName == d.firstName && u.lastName == d.lastName
               && u.isActive && (ComparePassword(u, candidate) <==> candidate == d.password)
               && o.response.message == Some(message)
               && o.response.data.AuthData? && o.response.data.user == PublicProfile(u)
               && (later < now + TokenLifetime(env).value ==> Verify(env.jwtSecret, o.response.data.token, later) == Some(u.id)))
  {
    var o := RegisterSpec(rows, clock, outage, isEmail, env, d, salt, now, message);
    if outage.None? && IndexOfEmail(rows, d.email).None? {
      CreateSpecOutcome(rows, clock, outage, isEmail, d, salt, candidate);
      var w := CreateSpec(rows, clock, outage, isEmail, d, salt);
      if w.result.Ok? {
        var u := w.result.value;
        assert w.rows[..|rows|] == rows;
        GenerateTokenVerifies(env, u.id, now, later);
      }
    }
  }

  /** A customer registration that succeeds adds a `customer` with the input's
      e-mail, names, phone and address. */
  lemma RegisterCustomerAddsCustomer(rows: seq<User>, clock: nat, outage: Option<string>, isEmail: string -> bool,
                                     env: Env, input: CustomerInput, salt: nat, now: nat)
    requires RegisterCustomerSpec(rows, clock, outage, isEmail, env, input, salt, now).response.success
    ensures var o := RegisterCustomerSpec(rows, clock, outage, isEmail, env, input, salt, now);
      && |o.rows| == |rows| + 1 && o.rows[..|rows|] == rows
      && o.rows[|rows|].role == Customer && o.rows[|rows|].email == input.email
      && o.rows[|rows|].phone == Nullable(input.phone) && o.rows[|rows|].address == Nullable(input.address)
      && o.response.message == Some("Customer registered successfully")
  {
    var d := CustomerDraft(input);
    RegisterOutcome(rows, clock, outage, isEmail, env, d, salt, now, "Customer registered successfully", now, "");
    CreateSpecOutcome(rows, clock, outage, isEmail, d, salt, "");
  }

  /** A wrong admin code is refused before the table is read; a successful
      admin registration had the right code and adds an `admin`. */
  lemma RegisterAdminChecksCodeFirst(rows: seq<User>, clock: nat, outage: Option<string>, isEmail: string -> bool,
                                     env: Env, input: AdminInput, salt: nat, now: nat)
    ensures input.adminCode != Str(EffectiveAdminCode(env)) ==>
      RegisterAdminSpec(rows, clock, outage, isEmail, env, input, salt, now) == Outcome(Failure(InvalidAdminCode), rows, clock)
    ensures var o := RegisterAdminSpec(rows, clock, outage, isEmail, env, input, salt, now);
      o.response.success ==>
        && input.adminCode == Str(EffectiveAdminCode(env))
        && |o.rows| == |rows| + 1 && o.rows[..|rows|] == rows
        && o.rows[|rows|].role == Admin && o.rows[|rows|].email == input.email
  {
    var o := RegisterAdminSpec(rows, clock, outage, isEmail, env, input, salt, now);
    if o.response.success {
      RegisterOutcome(rows, clock, outage, isEmail, env, AdminDraft(input), salt, now, "Admin registered successfully", now, "");
    }
  }

  /** Login gives the same answer for an unknown e-mail and for a wrong
      password, answers a deactivated account before it looks at the
      password, and writes nothing in any of these cases. */
  lemma LoginRefusals(rows: seq<User>, clock: nat, isEmail: string -> bool, env: Env, input: LoginInput, now: nat)
    requires WellFormed(rows, clock, isEmail)
    ensures (forall i :: 0 <= i < |rows| ==> rows[i].email != input.email) ==>
      LoginSpec(rows, clock, None, env, input, now) == Outcome(Failure(InvalidCredentials), rows, clock)
    ensures forall k :: 0 <= k < |rows| && rows[k].email == input.email && !rows[k].isActive ==>
      LoginSpec(rows, clock, None, env, input, now) == Outcome(Failure(AccountDeactivated), rows, clock)
    ensures forall k :: 0 <= k < |rows| && rows[k].email == input.email && rows[k].isActive
                        && !ComparePassword(rows[k], input.password) ==>
      LoginSpec(rows, clock, None, env, input, now) == Outcome(Failure(InvalidCredentials), rows, clock)
  {
    var f := IndexOfEmail(rows, input.email);
    forall k | 0 <= k < |rows| && rows[k].email == input.email
      ensures f == Some(k)
    {
      assert f.Some? && rows[f.value].email == rows[k].email;
    }
  }

  /** A login succeeds exactly for an active account, the right password
      and a server that can sign. It then records the login time on that row
      only and returns the row's public profile with a token for it. A
      failed login while the server can sign writes nothing. */
  lemma LoginSuccess(rows: seq<User>, clock: nat, isEmail: string -> bool, env: Env, input: LoginInput, now: nat,
                     k: nat, later: nat)
    requires WellFormed(rows, clock, isEmail)
    requires k < |rows| && rows[k].email == input.email
    ensures var o := LoginSpec(rows, clock, None, env, input, now);
      && (o.response.success <==> rows[k].isActive && ComparePassword(rows[k], input.password) && CanSign(env))
      && (!o.response.success && CanSign(env) ==> o.rows == rows && o.clock == clock)
      && (o.response.success ==>
            && o.rows == (if rows[k].lastLogin == Some(now) then rows
                          else rows[k := rows[k].(lastLogin := Some(now), updatedAt := clock)])
            && o.response.data.AuthData?
            && o.response.data.user == PublicProfile(o.rows[k])
            && (later < now + TokenLifetime(env).value ==> Verify(env.jwtSecret, o.response.data.token, later) == Some(rows[k].id)))
  {
    var f := IndexOfEmail(rows, input.email);
    assert f.Some? && rows[f.value].email == rows[k].email;
    assert f == Some(k);
    LastLoginPatchWritesOnlyLastLogin(rows[k], now, 0, clock);
    GenerateTokenVerifies(env, rows[k].id, now, later);
  }

  /** `changePassword` for a caller whose row is `rows[k]`: a current
      password that does not verify is refused and nothing is written;
      otherwise the change succeeds exactly when the new password has an
      acceptable length, and then that row accepts the new password and
      no other, and nothing else in the table changes. */
  lemma ChangePasswordOutcome(rows: seq<User>, clock: nat, outage: Option<string>, context: Option<PublicUser>,
                              input: PasswordInput, salt: nat, k: nat, candidate: string)
    requires context.Some? && Lookup(rows, outage, context.value.id) == Ok(k)
    ensures var o := ChangePasswordSpec(rows, clock, outage, context, input, salt);
      && (!ComparePassword(rows[k], input.currentPassword) ==>
            o == Outcome(Failure(WrongCurrentPassword), rows, clock))
      && (ComparePassword(rows[k], input.currentPassword) ==>
            (o.response.success <==> PasswordMinLength <= TextLength(input.newPassword) <= PasswordMaxLength))
      && (!o.response.success ==> o.rows == rows && o.clock == clock)
      && (o.response.success ==>
            && o.response == Success("Password changed successfully", NoData)
            && o.rows == rows[k := o.rows[k]] && o.clock == clock + 1
            && o.rows[k] == rows[k].(password := o.rows[k].password, updatedAt := clock)
            && (ComparePassword(o.rows[k], candidate) <==> candidate == input.newPassword))
  {
    PasswordPatchWritesOnlyPassword(rows[k], input.newPassword, salt, clock, candidate);
  }

  /** `updateProfile` and `updateUser` on `rows[k]`: they fail, writing
      nothing, exactly when a changed field breaks the model's validators;
      otherwise that row receives every supplied profile field and keeps
      its e-mail, role, activation flag, last login and password, no other
      row changes, and the response carries the row as saved. */
  lemma SaveProfileOutcome(rows: seq<User>, clock: nat, k: nat, input: ProfileInput, message: string)
    requires k < |rows|
    ensures var o := SaveProfile(rows, clock, None, k, input, message);
      && (o.response.success <==> UpdateViolations(rows[k], ProfilePatch(input)) == [] || !Changed(rows[k], ProfilePatch(input)))
      && (!o.response.success ==> o.rows == rows && o.clock == clock)
      && (o.response.success ==>
            && o.rows == rows[k := o.rows[k]]
            && o.response == Success(message, ProfileData(PublicProfile(o.rows[k])))
            && var u, v := rows[k], o.rows[k];
               && v.firstName == (if input.firstName.Str? then input.firstName.s else u.firstName)
               && v.lastName == (if input.lastName.Str? then input.lastName.s else u.lastName)
               && v.phone == (if input.phone.Undefined? then u.phone else Nullable(input.phone))
               && v.address == (if input.address.Undefined? then u.address else Nullable(input.address))
               && v.profileImage == (if input.profileImage.Undefined? then u.profileImage else Nullable(input.profileImage))
               && v.id == u.id && v.email == u.email && v.role == u.role && v.isActive == u.isActive
               && v.lastLogin == u.lastLogin && v.password == u.password)
  {
    ProfilePatchWritesOnlyProfile(rows[k], input, 0, clock);
  }

  // ---------------------------------------------------------------- orders

  datatype Product = Product(id: string, name: string, image: string, price: int)

  datatype OrderItem = OrderItem(id: nat, product: Product, quantity: int, price: int)

  datatype OrderUser = OrderUser(id: string, firstName: string, lastName: string, email: string)

  datatype Order = Order(
    id: string, orderNumber: string, status: string, total: int, items: seq<OrderItem>,
    user: Option<OrderUser>, createdAt: string, updatedAt: string)

  /** `items.map((item, index) => ...)` with ids counted from `first`. */
  function OrderItems(items: seq<OrderItemInput>, first: nat): (r: seq<OrderItem>)
    ensures |r| == |items|
    ensures forall i :: 0 <= i < |items| ==>
      && r[i].id == first + i
      && r[i].product == Product(items[i].productId, "Product " + items[i].productId, "", items[i].price)
      && r[i].quantity == items[i].quantity && r[i].price == items[i].price
    decreases |items|
  {
    if items == [] then []
    else
      var item := items[0];
      [OrderItem(first, Product(item.productId, "Product " + item.productId, "", item.price), item.quantity, item.price)]
      + OrderItems(items[1..], first + 1)
  }

  /** Mutation `createOrder`: the order is echoed back, not stored. `stamp`
      stands for `Date.now()` and `isoTime` for `new Date().toISOString()`. */
  function CreateOrder(input: OrderInput, stamp: nat, isoTime: string): (r: Response)
    ensures r.success && r.message == Some("Order created successfully") && r.data.OrderData?
    ensures var o := r.data.order;
      && o.id == "ORDER_" + Decimal(stamp) && o.orderNumber == "ORD-" + Decimal(stamp)
      && o.status == "pending" && o.total == input.total
      && |o.items| == |input.items|
      && (forall i :: 0 <= i < |o.items| ==>
            o.items[i].id == i + 1 && o.items[i].product.id == input.items[i].productId
            && o.items[i].quantity == input.items[i].quantity && o.items[i].price == input.items[i].price)
      && (o.user.None? <==> !TruthyString(input.userId))
      && (o.user.Some? ==> o.user.value.id == input.userId.value && o.user.value.email == input.customerInfo.email)
  {
    var c := input.customerInfo;
    var user := if TruthyString(input.userId) then Some(OrderUser(input.userId.value, c.firstName, c.lastName, c.email)) else None;
    Success("Order created successfully",
            OrderData(Order("ORDER_" + Decimal(stamp), "ORD-" + Decimal(stamp), "pending", input.total,
                            OrderItems(input.items, 1), user, isoTime, isoTime)))
  }

  // ---------------------------------------------------------------- mutation methods

  method RegisterCustomer(db: Table, env: Env, input: CustomerInput, salt: nat, now: nat) returns (response: Response)
    requires db.Valid()
    modifies db
    ensures db.Valid()
    ensures Outcome(response, db.rows, db.clock)
            == RegisterCustomerSpec(old(db.rows), old(db.clock), db.outage, db.isEmail, env, input, salt, now)
  {
    if db.outage.Some? {
      return Failure(db.outage.value);
    }
    if IndexOfEmail(db.rows, input.email).Some? {
      return Failure(UserExists);
    }
    var created := db.Create(CustomerDraft(input), salt);
    response := TokenResponse(created, env, now, "Customer registered successfully");
  }

  method RegisterAdmin(db: Table, env: Env, input: AdminInput, salt: nat, now: nat) returns (response: Response)
    requires db.Valid()
    modifies db
    ensures db.Valid()
    ensures Outcome(response, db.rows, db.clock)
            == RegisterAdminSpec(old(db.rows), old(db.clock), db.outage, db.isEmail, env, input, salt, now)
  {
    if input.adminCode != Str(EffectiveAdminCode(env)) {
      return Failure(InvalidAdminCode);
    }
    if db.outage.Some? {
      return Failure(db.outage.value);
    }
    if IndexOfEmail(db.rows, input.email).Some? {
      return Failure(UserExists);
    }
    var created := db.Create(AdminDraft(input), salt);
    response := TokenResponse(created, env, now, "Admin registered successfully");
  }

  method Login(db: Table, env: Env, input: LoginInput, now: nat) returns (response: Response)
    requires db.Valid()
    modifies db
    ensures db.Valid()
    ensures Outcome(response, db.rows, db.clock) == LoginSpec(old(db.rows), old(db.clock), db.outage, env, input, now)
  {
    if db.outage.Some? {
      return Failure(db.outage.value);
    }
    var found := IndexOfEmail(db.rows, input.email);
    if found.None? {
      return Failure(InvalidCredentials);
    }
    var user := db.rows[found.value];
    if !user.isActive {
      return Failure(AccountDeactivated);
    }
    if !ComparePassword(user, input.password) {
      return Failure(InvalidCredentials);
    }
    WellFormedIdsUnique(db.rows, db.clock, db.isEmail);
    var saved := db.Update(user, LastLoginPatch(now), 0);
    response := TokenResponse(saved, env, now, "Login successful");
  }

  method ChangePassword(db: Table, context: Option<PublicUser>, input: PasswordInput, salt: nat) returns (response: Response)
    requires db.Valid()
    modifies db
    ensures db.Valid()
    ensures Outcome(response, db.rows, db.clock) == ChangePasswordSpec(old(db.rows), old(db.clock), db.outage, context, input, salt)
  {
    var caller := GetUserFromContext(context);
    if caller.Err? {
      return Failure(caller.error);
    }
    var found := Lookup(db.rows, db.outage, caller.value.id);
    if found.Err? {
      return Failure(found.error);
    }
    var user := db.rows[found.value];
    if !ComparePassword(user, input.currentPassword) {
      return Failure(WrongCurrentPassword);
    }
    WellFormedIdsUnique(db.rows, db.clock, db.isEmail);
    var saved := db.Update(user, PasswordPatch(input.newPassword), salt);
    response := SavedResponse(saved, "Password changed successfully", false);
  }

  method UpdateProfile(db: Table, context: Option<PublicUser>, input: ProfileInput) returns (response: Response)
    requires db.Valid()
    modifies db
    ensures db.Valid()
    ensures Outcome(response, db.rows, db.clock) == UpdateProfileSpec(old(db.rows), old(db.clock), db.outage, context, input)
  {
    var caller := GetUserFromContext(context);
    if caller.Err? {
      return Failure(caller.error);
    }
    var found := Lookup(db.rows, db.outage, caller.value.id);
    if found.Err? {
      return Failure(found.error);
    }
    WellFormedIdsUnique(db.rows, db.clock, db.isEmail);
    var saved := db.Update(db.rows[found.value], ProfilePatch(input), 0);
    response := SavedResponse(saved, "Profile updated successfully", true);
  }

  method UpdateUser(db: Table, context: Option<PublicUser>, id: nat, input: ProfileInput) returns (response: Response)
    requires db.Valid()
    modifies db
    ensures db.Valid()
    ensures Outcome(response, db.rows, db.clock) == UpdateUserSpec(old(db.rows), old(db.clock), db.outage, context, id, input)
  {
    var admin := RequireAdmin(context);
    if admin.Err? {
      return Failure(admin.error);
    }
    var found := Lookup(db.rows, db.outage, id);
    if found.Err? {
      return Failure(found.error);
    }
    WellFormedIdsUnique(db.rows, db.clock, db.isEmail);
    var saved := db.Update(db.rows[found.value], ProfilePatch(input), 0);
    response := SavedResponse(saved, "User updated successfully", true);
  }

  method SetActive(db: Table, context: Option<PublicUser>, id: nat, active: bool) returns (response: Response)
    requires db.Valid()
    modifies db
    ensures db.Valid()
    ensures Outcome(response, db.rows, db.clock) == SetActiveSpec(old(db.rows), old(db.clock), db.outage, context, id, active)
  {
    var admin := RequireAdmin(context);
    if admin.Err? {
      return Failure(admin.error);
    }
    var found := Lookup(db.rows, db.outage, id);
    if found.Err? {
      return Failure(found.error);
    }
    WellFormedIdsUnique(db.rows, db.clock, db.isEmail);
    var saved := db.Update(db.rows[found.value], ActivePatch(active), 0);
    response := SavedResponse(saved, ActivationMessage(active), false);
  }

  /** Mutation `deactivateUser(id)`. */
  method DeactivateUser(db: Table, context: Option<PublicUser>, id: nat) returns (response: Response)
    requires db.Valid()
    modifies db
    ensures db.Valid()
    ensures Outcome(response, db.rows, db.clock) == SetActiveSpec(old(db.rows), old(db.clock), db.outage, context, id, false)
  {
    response := SetActive(db, context, id, false);
  }

  /** Mutation `activateUser(id)`. */
  method ActivateUser(db: Table, context: Option<PublicUser>, id: nat) returns (response: Response)
    requires db.Valid()
    modifies db
    ensures db.Valid()
    ensures Outcome(response, db.rows, db.clock) == SetActiveSpec(old(db.rows), old(db.clock), db.outage, context, id, true)
  {
    response := SetActive(db, context, id, true);
  }
}
