/** The server's environment (`process.env`) and the token helper that
    both the resolvers and the REST controller define. */
module ServerConfig {
  import opened Common
  import opened Crypto

  /** `JWT_SECRET` (unset reads as ""), `JWT_EXPIRES_IN` as the string the
      process sees (or unset) and `ADMIN_REGISTRATION_CODE`, with `ms`, the
      timespan parser `jwt.sign` applies to `JWT_EXPIRES_IN`. */
  datatype Env = Env(jwtSecret: string, jwtExpiresIn: Option<string>, ms: string -> Option<nat>,
                     adminRegistrationCode: Option<string>)

  const DefaultAdminCode := "ADMIN123"

  /** `process.env.ADMIN_REGISTRATION_CODE || "ADMIN123"`: an unset or empty
      variable falls back to the built-in code. */
  function EffectiveAdminCode(env: Env): (code: string)
    ensures code != ""
    ensures TruthyString(env.adminRegistrationCode) ==> code == env.adminRegistrationCode.value
    ensures !TruthyString(env.adminRegistrationCode) ==> code == DefaultAdminCode
  {
    if TruthyString(env.adminRegistrationCode) then env.adminRegistrationCode.value else DefaultAdminCode
  }

  /** `generateToken(userId)` at time `now`. */
  function GenerateToken(env: Env, userId: nat, now: nat): Result<string, string> {
    Issue(env.jwtSecret, userId, now, env.jwtExpiresIn, env.ms)
  }

  /** The lifetime of the tokens the server issues, if it can issue any. */
  function TokenLifetime(env: Env): Option<nat> {
    Lifetime(env.jwtExpiresIn, env.ms)
  }

  /** The server can sign tokens: the secret is set and `JWT_EXPIRES_IN`
      names a timespan. */
  predicate CanSign(env: Env) {
    env.jwtSecret != "" && TokenLifetime(env).Some?
  }

  /** Token generation fails exactly when the server cannot sign; a
      generated token, presented before its lifetime is over, verifies to
      the user it was generated for. */
  lemma GenerateTokenVerifies(env: Env, userId: nat, now: nat, later: nat)
    ensures GenerateToken(env, userId, now).Ok? <==> CanSign(env)
    ensures CanSign(env) && later < now + TokenLifetime(env).value ==>
      Verify(env.jwtSecret, GenerateToken(env, userId, now).value, later) == Some(userId)
  {
    IssueOutcome(env.jwtSecret, userId, now, env.jwtExpiresIn, env.ms);
    if CanSign(env) {
      VerifySigned(env.jwtSecret, Claims(userId, now + TokenLifetime(env).value), later);
    }
  }
}
