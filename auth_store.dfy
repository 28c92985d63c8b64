/** The client's authentication store: the signed-in user object, its token,
    the `isAuthenticated` and `isLoading` flags, and the copy of the token
    kept in `localStorage` under the key "token". Each action replaces some
    of these fields; the role getters read them. The GraphQL round trips of
    `registerUser`, `authenticateUser` and `checkAuthStatus` are modelled by
    the reply they receive, which is a parameter. */
module AuthStore {
  import opened Common
  import opened Requests

  // ---------------------------------------------------------------- user objects

  /** A field of a user object as the client holds it (JSON from the API). */
  datatype Value = Text(s: string) | Flag(b: bool) | Null

  type UserObject = map<string, Value>

  /** JavaScript truthiness of a field value. */
  predicate Truthy(v: Value) {
    match v
    case Text(s) => s != ""
    case Flag(b) => b
    case Null => false
  }

  /** `{ ...base, ...updated }`: a `null` base spreads as `{}`. */
  function Merge(base: Option<UserObject>, updated: UserObject): (m: UserObject)
    ensures m.Keys == updated.Keys + (if base.Some? then base.value.Keys else {})
    ensures forall k :: k in updated ==> m[k] == updated[k]
    ensures base.Some? ==> forall k :: k in base.value && k !in updated ==> m[k] == base.value[k]
  {
    (if base.Some? then base.value else map[]) + updated
  }

  /** `user?.role`: nothing without a user or without a `role` key. */
  function Role(user: Option<UserObject>): Option<Value> {
    if user.Some? && "role" in user.value then Some(user.value["role"]) else None
  }

  /** `get().user?.role || null`. */
  function RoleOrNull(user: Option<UserObject>): (r: Option<Value>)
    ensures user.None? ==> r.None?
    ensures r.Some? <==> Role(user).Some? && Truthy(Role(user).value)
    ensures r.Some? ==> Role(user) == r
  {
    match Role(user)
    case Some(v) => if Truthy(v) then Some(v) else None
    case None => None
  }

  /** `user?.role === "admin"`. */
  predicate IsAdminUser(user: Option<UserObject>) {
    Role(user) == Some(Text("admin"))
  }

  /** `user?.role === "customer"`. */
  predicate IsCustomerUser(user: Option<UserObject>) {
    Role(user) == Some(Text("customer"))
  }

  /** `canCreateAdmin()`: admin creation is allowed unconditionally. */
  function CanCreateAdmin(): (allowed: bool)
    ensures allowed
  {
    true
  }

  /** The role getters agree: at most one of the two role tests holds, a
      role test implies that role is what `getUserRole` reports, and a
      store without a user is neither. */
  lemma RoleGettersAgree(user: Option<UserObject>)
    ensures !(IsAdminUser(user) && IsCustomerUser(user))
    ensures IsAdminUser(user) <==> RoleOrNull(user) == Some(Text("admin"))
    ensures IsCustomerUser(user) <==> RoleOrNull(user) == Some(Text("customer"))
    ensures user.None? ==> !IsAdminUser(user) && !IsCustomerUser(user)
  {
  }

  /** Shallow merging the same update twice is merging it once, and an empty
      update keeps the user as it was. */
  lemma MergeIdempotent(base: Option<UserObject>, updated: UserObject)
    ensures Merge(Some(Merge(base, updated)), updated) == Merge(base, updated)
    ensures base.Some? ==> Merge(base, map[]) == base.value
  {
  }

  /** A profile update never removes a field the user had. */
  lemma MergeKeepsFields(base: UserObject, updated: UserObject, k: string)
    requires k in base
    ensures k in Merge(Some(base), updated)
    ensures k !in updated ==> Merge(Some(base), updated)[k] == base[k]
  {
  }

  // ---------------------------------------------------------------- store state

  /** The store's fields together with `localStorage["token"]`. */
  datatype Snapshot = Snapshot(
    user: Option<UserObject>, token: Option<string>, isAuthenticated: bool, isLoading: bool,
    storedToken: Option<string>)

  /** The state the store is created with; `localStorage` keeps whatever an
      earlier session left there. */
  function Initial(stored: Option<string>): Snapshot {
    Snapshot(None, None, false, false, stored)
  }

  /** `localStorage.setItem` stores the string form of its value: a `null`
      token is stored as the text "null". */
  function StorageText(t: Option<string>): string {
    if t.Some? then t.value else "null"
  }

  /** `setUser(user)`. */
  function SetUserNext(s: Snapshot, user: Option<UserObject>): Snapshot {
    s.(user := user, isAuthenticated := user.Some?)
  }

  /** `setToken(token)`: a truthy token is stored, any other removes the
      stored one; the store's token is the argument either way. */
  function SetTokenNext(s: Snapshot, token: Option<string>): Snapshot {
    s.(token := token, storedToken := if TruthyString(token) then token else None)
  }

  /** `login(userData, token)`. */
  function LoginNext(s: Snapshot, user: Option<UserObject>, token: Option<string>): Snapshot {
    s.(user := user, token := token, isAuthenticated := true, isLoading := false,
       storedToken := Some(StorageText(token)))
  }

  /** `logout()`. */
  function LogoutNext(s: Snapshot): Snapshot {
    Snapshot(None, None, false, false, None)
  }

  /** `updateProfile(updatedUser)`: only `user` is replaced. */
  function UpdateProfileNext(s: Snapshot, updated: UserObject): Snapshot {
    s.(user := Some(Merge(s.user, updated)))
  }

  /** `setLoading(loading)`. */
  function SetLoadingNext(s: Snapshot, loading: bool): Snapshot {
    s.(isLoading := loading)
  }

  lemma SetUserAuthenticates(s: Snapshot, user: Option<UserObject>)
    ensures SetUserNext(s, user).isAuthenticated <==> user.Some?
    ensures SetUserNext(s, user) == s.(user := user, isAuthenticated := SetUserNext(s, user).isAuthenticated)
  {
  }

  lemma SetTokenStores(s: Snapshot, token: Option<string>)
    ensures var n := SetTokenNext(s, token);
      && n.token == token
      && (n.storedToken.Some? <==> token.Some? && token.value != "")
      && (n.storedToken.Some? ==> n.storedToken == token)
      && n.user == s.user && n.isAuthenticated == s.isAuthenticated && n.isLoading == s.isLoading
  {
  }

  /** Signing in and then out returns the store to its initial state and
      leaves no token in `localStorage`, whatever the state was before. */
  lemma LoginThenLogout(s: Snapshot, user: Option<UserObject>, token: Option<string>)
    ensures LogoutNext(LoginNext(s, user, token)) == Initial(None)
    ensures LoginNext(s, user, token).isAuthenticated && !LoginNext(s, user, token).isLoading
    ensures LoginNext(s, user, token).storedToken == Some(StorageText(token))
    ensures token.Some? ==> LoginNext(s, user, token).storedToken == token
  {
  }

  lemma UpdateProfileOnlyUser(s: Snapshot, updated: UserObject)
    ensures var n := UpdateProfileNext(s, updated);
      && n.user.Some?
      && (forall k :: k in updated ==> n.user.value[k] == updated[k])
      && (s.user.Some? ==> forall k :: k in s.user.value ==> k in n.user.value)
      && n.token == s.token && n.isAuthenticated == s.isAuthenticated
      && n.isLoading == s.isLoading && n.storedToken == s.storedToken
  {
  }

  // ---------------------------------------------------------------- persistence

  /** What the `persist` middleware writes under "auth-storage". */
  datatype Persisted = Persisted(user: Option<UserObject>, token: Option<string>, isAuthenticated: bool)

  /** `partialize`. */
  function Persist(s: Snapshot): (p: Persisted)
    ensures p.user == s.user && p.token == s.token && p.isAuthenticated == s.isAuthenticated
  {
    Persisted(s.user, s.token, s.isAuthenticated)
  }

  /** Loading the persisted fields into a freshly created store. */
  function Rehydrate(p: Persisted, stored: Option<string>): Snapshot {
    Initial(stored).(user := p.user, token := p.token, isAuthenticated := p.isAuthenticated)
  }

  /** The persisted form keeps everything but the loading flag: reloading it
      gives the same state with `isLoading` cleared, and the loading flag
      never reaches storage. */
  lemma PartializeRoundTrip(s: Snapshot, loading: bool)
    ensures Rehydrate(Persist(s), s.storedToken) == s.(isLoading := false)
    ensures Persist(SetLoadingNext(s, loading)) == Persist(s)
  {
  }

  // ---------------------------------------------------------------- remote calls

  /** The default admin code the client sends when the form has none. */
  const DefaultAdminCode := "ADMIN123"

  /** The `userData` of `registerUser`, with the fields the form may omit. */
  datatype RegisterData = RegisterData(
    role: Input, email: string, password: string, firstName: string, lastName: string,
    phone: Input, address: Input, adminCode: Input)

  /** The mutation `registerUser` sends and its `input` variable. */
  datatype Registration = AdminRegistration(admin: AdminInput) | CustomerRegistration(customer: CustomerInput)

  /** `v || fallback` on a form field. */
  function OrElse(v: Input, fallback: string): (r: string)
    ensures v.Str? && v.s != "" ==> r == v.s
    ensures !(v.Str? && v.s != "") ==> r == fallback
  {
    if v.Str? && v.s != "" then v.s else fallback
  }

  /** The variables of the registration mutation. */
  function RegisterVariables(d: RegisterData): Registration {
    if d.role == Str("admin") then
      AdminRegistration(AdminInput(d.email, d.password, d.firstName, d.lastName,
                                   Str(OrElse(d.adminCode, DefaultAdminCode))))
    else
      CustomerRegistration(CustomerInput(d.email, d.password, d.firstName, d.lastName,
                                         Str(OrElse(d.phone, "")), Str(OrElse(d.address, ""))))
  }

  /** Only the role "admin" selects the admin mutation; the admin code is
      always sent, "ADMIN123" when the form left it empty; the customer
      mutation always sends a phone and an address, "" when empty; the
      account fields are passed as given. */
  lemma RegisterVariablesByRole(d: RegisterData)
    ensures RegisterVariables(d).AdminRegistration? <==> d.role == Str("admin")
    ensures RegisterVariables(d).AdminRegistration? ==>
      var a := RegisterVariables(d).admin;
      && a.email == d.email && a.password == d.password
      && a.firstName == d.firstName && a.lastName == d.lastName
      && a.adminCode.Str? && a.adminCode.s != ""
      && (d.adminCode.Str? && d.adminCode.s != "" ==> a.adminCode == d.adminCode)
      && (!(d.adminCode.Str? && d.adminCode.s != "") ==> a.adminCode == Str(DefaultAdminCode))
    ensures RegisterVariables(d).CustomerRegistration? ==>
      var c := RegisterVariables(d).customer;
      && c.email == d.email && c.password == d.password
      && c.firstName == d.firstName && c.lastName == d.lastName
      && c.phone.Str? && c.address.Str?
      && (d.phone.Str? ==> c.phone == d.phone)
      && (!d.phone.Str? ==> c.phone == Str(""))
      && (d.address.Str? ==> c.address == d.address)
      && (!d.address.Str? ==> c.address == Str(""))
  {
  }

  /** The `data` of a successful authentication payload. */
  datatype Payload = Payload(user: Option<UserObject>, token: Option<string>)

  /** What `client.mutate` yields for the login and registration mutations:
      a rejected promise, or the resolver's `{ success, message, data }`. */
  datatype Reply = TransportError(message: string) | Replied(success: bool, message: string, data: Option<Payload>)

  /** What the `me` query yields. */
  datatype MeReply = MeTransportError | MeReplied(success: bool, data: Option<Option<UserObject>>)

  /** Why an action threw. */
  datatype Failure =
    | ClientUnavailable              // "Apollo Client not available"
    | TransportFailed(message: string)
    | NotSuccessful(message: string) // `throw new Error(result.message)`
    | MissingData                    // reading `.user` of a `null` `data`

  /** A store action that may throw: the state it leaves and its outcome. */
  datatype Call = Call(state: Snapshot, result: Result<Option<UserObject>, Failure>)

  /** The shared tail of `registerUser` and `authenticateUser`: on success
      the user and token are taken over and the token stored; on any
      failure only `isLoading` is reset and the error is rethrown. */
  function Authenticated(s: Snapshot, clientAvailable: bool, reply: Reply): Call {
    if !clientAvailable then Call(s.(isLoading := false), Err(ClientUnavailable))
    else match reply
      case TransportError(m) => Call(s.(isLoading := false), Err(TransportFailed(m)))
      case Replied(success, message, data) =>
        if !success then Call(s.(isLoading := false), Err(NotSuccessful(message)))
        else if data.None? then Call(s.(isLoading := false), Err(MissingData))
        else Call(LoginNext(s, data.value.user, data.value.token), Ok(data.value.user))
  }

  /** A reply that reports success with its data signs the user in with the
      returned token, exactly as `login` does; every other case throws and
      leaves the session (user, token, flag, stored token) as it was. */
  lemma AuthenticatedOutcome(s: Snapshot, clientAvailable: bool, reply: Reply)
    ensures var c := Authenticated(s, clientAvailable, reply);
      (c.result.Ok? <==> clientAvailable && reply.Replied? && reply.success && reply.data.Some?)
    ensures var c := Authenticated(s, clientAvailable, reply);
      c.result.Ok? ==>
        && c.result.value == reply.data.value.user
        && c.state == LoginNext(s, reply.data.value.user, reply.data.value.token)
    ensures var c := Authenticated(s, clientAvailable, reply);
      c.result.Err? ==> c.state == s.(isLoading := false)
    ensures var c := Authenticated(s, clientAvailable, reply);
      clientAvailable && reply.Replied? && !reply.success ==> c.result == Err(NotSuccessful(reply.message))
  {
  }

  /** `checkAuthStatus()`: without a truthy stored token the session is
      cleared and `isLoading` left alone; a successful `me` reply keeps the
      stored token and takes the returned user; anything else clears the
      session and the stored token. */
  function CheckAuthStatusNext(s: Snapshot, clientAvailable: bool, reply: MeReply): Snapshot {
    if !TruthyString(s.storedToken) then s.(isAuthenticated := false, user := None, token := None)
    else if clientAvailable && reply.MeReplied? && reply.success && reply.data.Some? then
      s.(user := reply.data.value, token := s.storedToken, isAuthenticated := true, isLoading := false)
    else LogoutNext(s)
  }

  /** After the start-up check the store is signed in only with the token
      that was stored, and a store that is signed out has no token left. */
  lemma CheckAuthStatusOutcome(s: Snapshot, clientAvailable: bool, reply: MeReply)
    ensures var n := CheckAuthStatusNext(s, clientAvailable, reply);
      n.isAuthenticated ==> TruthyString(s.storedToken) && n.token == s.storedToken && n.storedToken == s.storedToken
    ensures var n := CheckAuthStatusNext(s, clientAvailable, reply);
      n.isAuthenticated <==> TruthyString(s.storedToken) && clientAvailable && reply.MeReplied? && reply.success && reply.data.Some?
    ensures var n := CheckAuthStatusNext(s, clientAvailable, reply);
      !n.isAuthenticated ==> n.user.None? && n.token.None?
    ensures var n := CheckAuthStatusNext(s, clientAvailable, reply);
      !n.isAuthenticated && TruthyString(s.storedToken) ==> n == Initial(None)
  {
  }

  // ---------------------------------------------------------------- the store

  class Store {
    var user: Option<UserObject>
    var token: Option<string>
    var isAuthenticated: bool
    var isLoading: bool
    /** `localStorage["token"]`. */
    var storedToken: Option<string>

    function State(): Snapshot
      reads this
    {
      Snapshot(user, token, isAuthenticated, isLoading, storedToken)
    }

    constructor(stored: Option<string>)
      ensures State() == Initial(stored)
    {
      user, token, isAuthenticated, isLoading := None, None, false, false;
      storedToken := stored;
    }

    method SetUser(u: Option<UserObject>)
      modifies this
      ensures State() == SetUserNext(old(State()), u)
    {
      user, isAuthenticated := u, u.Some?;
    }

    method SetToken(t: Option<string>)
      modifies this
      ensures State() == SetTokenNext(old(State()), t)
    {
      token := t;
      if TruthyString(t) {
        storedToken := t;
      } else {
        storedToken := None;
      }
    }

    method Login(u: Option<UserObject>, t: Option<string>)
      modifies this
      ensures State() == LoginNext(old(State()), u, t)
    {
      user, token, isAuthenticated, isLoading := u, t, true, false;
      storedToken := Some(StorageText(t));
    }

    method Logout()
      modifies this
      ensures State() == LogoutNext(old(State()))
    {
      user, token, isAuthenticated, isLoading := None, None, false, false;
      storedToken := None;
    }

    method UpdateProfile(updated: UserObject)
      modifies this
      ensures State() == UpdateProfileNext(old(State()), updated)
    {
      user := Some(Merge(user, updated));
    }

    method SetLoading(loading: bool)
      modifies this
      ensures State() == SetLoadingNext(old(State()), loading)
    {
      isLoading := loading;
    }

    /** `registerUser(userData)`: `sent` is the mutation put on the wire
        (none when there is no client) and `reply` what came back. */
    method RegisterUser(d: RegisterData, clientAvailable: bool, reply: Reply)
      returns (sent: Option<Registration>, r: Result<Option<UserObject>, Failure>)
      modifies this
      ensures sent == (if clientAvailable then Some(RegisterVariables(d)) else None)
      ensures Call(State(), r) == Authenticated(old(State()), clientAvailable, reply)
    {
      isLoading := true;
      sent := None;
      if clientAvailable {
        sent := Some(RegisterVariables(d));
      }
      r := Finish(clientAvailable, reply);
    }

    /** `authenticateUser(email, password)`. */
    method AuthenticateUser(email: string, password: string, clientAvailable: bool, reply: Reply)
      returns (sent: Option<LoginInput>, r: Result<Option<UserObject>, Failure>)
      modifies this
      ensures sent == (if clientAvailable then Some(LoginInput(email, password)) else None)
      ensures Call(State(), r) == Authenticated(old(State()), clientAvailable, reply)
    {
      isLoading := true;
      sent := None;
      if clientAvailable {
        sent := Some(LoginInput(email, password));
      }
      r := Finish(clientAvailable, reply);
    }

    /** The `try`/`catch` both remote actions share, entered with
        `isLoading` set. */
    method Finish(clientAvailable: bool, reply: Reply) returns (r: Result<Option<UserObject>, Failure>)
      modifies this
      ensures Call(State(), r) == Authenticated(old(State()).(isLoading := false), clientAvailable, reply)
    {
      if !clientAvailable {
        isLoading := false;
        return Err(ClientUnavailable);
      }
      match reply
      case TransportError(m) =>
        isLoading := false;
        r := Err(TransportFailed(m));
      case Replied(success, message, data) =>
        if !success {
          isLoading := false;
          r := Err(NotSuccessful(message));
        } else if data.None? {
          isLoading := false;
          r := Err(MissingData);
        } else {
          Login(data.value.user, data.value.token);
          r := Ok(data.value.user);
        }
    }

    /** `checkAuthStatus()`: `query` is the bearer token sent with `me`. */
    method CheckAuthStatus(clientAvailable: bool, reply: MeReply) returns (query: Option<string>)
      modifies this
      ensures query == (if TruthyString(old(storedToken)) && clientAvailable then old(storedToken) else None)
      ensures State() == CheckAuthStatusNext(old(State()), clientAvailable, reply)
    {
      query := None;
      var stored := storedToken;
      if !TruthyString(stored) {
        isAuthenticated, user, token := false, None, None;
        return;
      }
      isLoading := true;
      if clientAvailable {
        query := stored;
      }
      if clientAvailable && reply.MeReplied? && reply.success && reply.data.Some? {
        user, token, isAuthenticated, isLoading := reply.data.value, stored, true, false;
      } else {
        Logout();
      }
    }

    function GetUserRole(): (r: Option<Value>)
      reads this
      ensures r.Some? ==> user.Some? && Truthy(r.value)
    {
      RoleOrNull(user)
    }

    predicate IsAdmin()
      reads this
    {
      IsAdminUser(user)
    }

    predicate IsCustomer()
      reads this
    {
      IsCustomerUser(user)
    }

    function Partialize(): (p: Persisted)
      reads this
      ensures p == Persist(State())
    {
      Persisted(user, token, isAuthenticated)
    }
  }
}
