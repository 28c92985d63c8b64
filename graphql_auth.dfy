/** The GraphQL context builder (`graphqlAuth`) and the client side of the
    same header (`authLink` in the client's entry point).

    A request carries `Authorization: Bearer <token>` as in section 2.1 of
    RFC 6750. The server splits the header on a space and takes the second
    field without looking at the scheme word; every failure on the way
    (no header, no second field, a token that does not verify, a failed
    lookup, a missing or inactive user) yields the anonymous context. */
module GraphqlAuth {
  import opened Common
  import opened Crypto
  import opened UserModel
  import opened UserTable

  /** `authHeader.split(" ")[1]`, guarded by `!authHeader` and `!token`. */
  function BearerToken(header: Option<string>): (token: Option<string>)
    ensures token.Some? ==> token.value != "" && ' ' !in token.value
    ensures !TruthyString(header) ==> token.None?
  {
    if !TruthyString(header) then None
    else
      var parts := Split(header.value, ' ');
      if |parts| < 2 || parts[1] == "" then None else Some(parts[1])
  }

  /** `graphqlAuth(req).user` against the table `rows` (failing with
      `outage` when the database is down), the secret and the time. */
  function Resolve(header: Option<string>, rows: seq<User>, outage: Option<string>, secret: string, now: nat): Option<PublicUser> {
    match BearerToken(header)
    case None => None
    case Some(token) =>
      match Verify(secret, token, now)
      case None => None
      case Some(userId) =>
        if outage.Some? then None
        else
          match IndexOfId(rows, userId)
          case None => None
          case Some(i) => if rows[i].isActive then Some(PublicProfile(rows[i])) else None
  }

  /** The context holds a user exactly when the second field of the header
      is a token that verifies, the database answers, and the token's user
      exists and is active; the user is then that row's public profile.
      Primary keys are unique, as the table guarantees. */
  lemma ResolveCharacterized(header: Option<string>, rows: seq<User>, outage: Option<string>, secret: string,
                             now: nat, p: PublicUser)
    requires IdsUnique(rows)
    ensures Resolve(header, rows, outage, secret, now) == Some(p) <==>
      && BearerToken(header).Some?
      && Verify(secret, BearerToken(header).value, now).Some?
      && outage.None?
      && exists i :: 0 <= i < |rows| && rows[i].id == Verify(secret, BearerToken(header).value, now).value
                     && rows[i].isActive && p == PublicProfile(rows[i])
  {
    var token := BearerToken(header);
    if token.Some? && Verify(secret, token.value, now).Some? && outage.None? {
      var uid := Verify(secret, token.value, now).value;
      var k := IndexOfId(rows, uid);
      if k.Some? && rows[k.value].isActive && p == PublicProfile(rows[k.value]) {
        assert rows[k.value].id == uid;
      }
      if exists i :: 0 <= i < |rows| && rows[i].id == uid && rows[i].isActive && p == PublicProfile(rows[i]) {
        var i :| 0 <= i < |rows| && rows[i].id == uid && rows[i].isActive && p == PublicProfile(rows[i]);
        assert k.Some? && rows[k.value].id == rows[i].id;
        assert k.value == i;
      }
    }
  }

  /** The client's `authorization` value: `Bearer <token>` when a token is
      stored, and the empty string otherwise. */
  function AuthHeader(storedToken: Option<string>): (h: string)
    ensures TruthyString(storedToken) ==> h == "Bearer " + storedToken.value
    ensures !TruthyString(storedToken) ==> h == ""
  {
    if TruthyString(storedToken) then "Bearer " + storedToken.value else ""
  }

  /** The server reads back the token whatever the scheme word is, as long
      as that word has no space. */
  lemma BearerTokenAnyScheme(scheme: string, token: string)
    requires ' ' !in scheme && ' ' !in token && token != ""
    ensures BearerToken(Some(scheme + " " + token)) == Some(token)
  {
    SplitAtSeparator(scheme, ' ', token);
    SplitWithoutSeparator(token, ' ');
    assert scheme + " " + token == scheme + [' '] + token;
  }

  /** The header the client builds round-trips: a stored token without a
      space is recovered by the server, and no token means anonymous. */
  lemma AuthHeaderRoundTrip(storedToken: Option<string>, rows: seq<User>, outage: Option<string>, secret: string, now: nat)
    requires storedToken.Some? ==> ' ' !in storedToken.value
    ensures TruthyString(storedToken) ==> BearerToken(Some(AuthHeader(storedToken))) == storedToken
    ensures !TruthyString(storedToken) ==> Resolve(Some(AuthHeader(storedToken)), rows, outage, secret, now).None?
  {
    if TruthyString(storedToken) {
      BearerTokenAnyScheme("Bearer", storedToken.value);
      assert AuthHeader(storedToken) == "Bearer" + " " + storedToken.value;
    }
  }

  /** End to end: a token the server issued, sent by the client before it
      expires, resolves to the public profile of its active user. */
  lemma IssuedTokenResolves(rows: seq<User>, secret: string, userId: nat, issuedAt: nat,
                            expiresIn: Option<string>, ms: string -> Option<nat>, now: nat, i: nat)
    requires Issue(secret, userId, issuedAt, expiresIn, ms).Ok?
    requires now < issuedAt + Lifetime(expiresIn, ms).value
    requires i < |rows| && rows[i].id == userId && rows[i].isActive
    requires IdsUnique(rows)
    ensures Resolve(Some(AuthHeader(Some(Issue(secret, userId, issuedAt, expiresIn, ms).value))), rows, None, secret, now)
            == Some(PublicProfile(rows[i]))
  {
    IssueOutcome(secret, userId, issuedAt, expiresIn, ms);
    var c := Claims(userId, issuedAt + Lifetime(expiresIn, ms).value);
    var t := Sign(secret, c);
    SignHasNoSpace(secret, c);
    assert t != "";
    BearerTokenAnyScheme("Bearer", t);
    assert AuthHeader(Some(t)) == "Bearer" + " " + t;
    VerifySigned(secret, c, now);
    var k := IndexOfId(rows, userId);
    assert k.Some? && rows[k.value].id == rows[i].id;
    assert k.value == i;
  }

  // ---------------------------------------------------------------- as written

  /** `graphqlAuth(req).user` as written: the module binds only `user`, so
      the call `User.findByPk` after a verified token throws a
      ReferenceError, and the catch answers with the anonymous context. The
      throw is the lookup failing with `UnboundModelError`. */
  function ResolveAsWritten(header: Option<string>, rows: seq<User>, secret: string, now: nat): Option<PublicUser> {
    Resolve(header, rows, Some(UnboundModelError), secret, now)
  }

  /** As written, every request is anonymous, whatever its header. */
  lemma ResolveAsWrittenAnonymous(header: Option<string>, rows: seq<User>, secret: string, now: nat)
    ensures ResolveAsWritten(header, rows, secret, now) == None
  {
  }

  /** As written, even a token the server just issued to an active user
      gives the anonymous context, where the intended binding resolves it
      to that user's profile. */
  lemma IssuedTokenIgnoredAsWritten(rows: seq<User>, secret: string, userId: nat, issuedAt: nat,
                                    expiresIn: Option<string>, ms: string -> Option<nat>, now: nat, i: nat)
    requires Issue(secret, userId, issuedAt, expiresIn, ms).Ok?
    requires now < issuedAt + Lifetime(expiresIn, ms).value
    requires i < |rows| && rows[i].id == userId && rows[i].isActive
    requires IdsUnique(rows)
    ensures var header := Some(AuthHeader(Some(Issue(secret, userId, issuedAt, expiresIn, ms).value)));
      && ResolveAsWritten(header, rows, secret, now) == None
      && Resolve(header, rows, None, secret, now) == Some(PublicProfile(rows[i]))
  {
    IssuedTokenResolves(rows, secret, userId, issuedAt, expiresIn, ms, now, i);
  }
}
