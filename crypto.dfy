/** Stand-ins for the two cryptographic libraries the server uses.

    bcrypt (`bcrypt.hash(p, 12)`, `bcrypt.compare`) is modelled
    symbolically: a hash is a value that remembers its cost, its salt and
    its preimage, and nothing but `Compare` looks at the preimage. This
    is the usual idealisation of a collision-free one-way function.

    JSON Web Tokens (`jwt.sign({ userId }, secret, { expiresIn })`,
    `jwt.verify(token, secret)`) are modelled as the string
    `<userId>.<exp>.<mac>` in canonical decimal, where `Mac` is a
    deterministic function of the secret and the claims standing in for
    the HMAC signature. Verification accepts exactly the strings that
    signing with the same secret produces, and only before `exp`. */
module Crypto {
  import opened Common

  // ---------------------------------------------------------------- bcrypt

  /** The cost factor the user model passes to `bcrypt.hash`. */
  const BcryptRounds: nat := 12

  datatype PasswordHash = Bcrypt(rounds: nat, salt: nat, preimage: string)

  /** `bcrypt.hash(plain, 12)` with the random salt supplied by the caller. */
  function Hash(plain: string, salt: nat): (h: PasswordHash)
    ensures h.rounds == BcryptRounds && h.salt == salt
  {
    Bcrypt(BcryptRounds, salt, plain)
  }

  /** `bcrypt.compare(candidate, h)`. */
  predicate Compare(candidate: string, h: PasswordHash) {
    candidate == h.preimage
  }

  /** A hash accepts its own password and no other, whatever the salt. */
  lemma CompareHash(p: string, q: string, salt: nat)
    ensures Compare(q, Hash(p, salt)) <==> q == p
  {
  }

  // ---------------------------------------------------------------- tokens

  datatype Claims = Claims(userId: nat, exp: nat)

  /** A 32-bit polynomial digest; only its determinism matters here. */
  function Digest(s: string): nat
    decreases |s|
  {
    if s == [] then 0 else (Digest(s[..|s| - 1]) * 31 + s[|s| - 1] as int) % 0x1_0000_0000
  }

  /** Stand-in for the token's HMAC signature over the claims. */
  function Mac(secret: string, c: Claims): nat {
    Digest(secret + "." + Decimal(c.userId) + "." + Decimal(c.exp))
  }

  /** The string `jwt.sign` issues for the claims. */
  function Sign(secret: string, c: Claims): string {
    Decimal(c.userId) + "." + Decimal(c.exp) + "." + Decimal(Mac(secret, c))
  }

  const NoSecretMessage := "secretOrPrivateKey must have a value"
  const ExpiresInTypeMessage := "\"expiresIn\" should be a number of seconds or string representing a timespan"
  const ExpiresInTimespanMessage := "\"expiresIn\" should be a number of seconds or string representing a timespan eg: \"1d\", \"20h\", 60"

  /** The token lifetime in seconds that `jwt.sign` reads off an `expiresIn`
      option holding an environment variable: none when it is unset or
      empty, or when `ms` (the timespan parser jsonwebtoken calls, giving
      milliseconds) does not read it; otherwise the milliseconds rounded
      down to seconds. So "3600" is 3 seconds and "1h" 3600. */
  function Lifetime(expiresIn: Option<string>, ms: string -> Option<nat>): Option<nat> {
    if expiresIn.None? || expiresIn.value == "" then None
    else
      match ms(expiresIn.value)
      case None => None
      case Some(t) => Some(t / 1000)
  }

  /** `jwt.sign({ userId }, secret, { expiresIn })` at time `now` (seconds):
      the secret is checked first, then the option's type, then its
      timespan; each failure is a thrown error with jsonwebtoken's message. */
  function Issue(secret: string, userId: nat, now: nat, expiresIn: Option<string>, ms: string -> Option<nat>): Result<string, string> {
    if secret == "" then Err(NoSecretMessage)
    else if expiresIn.None? || expiresIn.value == "" then Err(ExpiresInTypeMessage)
    else
      match ms(expiresIn.value)
      case None => Err(ExpiresInTimespanMessage)
      case Some(t) => Ok(Sign(secret, Claims(userId, now + t / 1000)))
  }

  /** Signing succeeds exactly when the secret is set and the lifetime is
      readable, and the token then carries the user and an expiry that
      lifetime after `now`; a failure carries one of the three messages, the
      missing secret winning over a bad lifetime. */
  lemma IssueOutcome(secret: string, userId: nat, now: nat, expiresIn: Option<string>, ms: string -> Option<nat>)
    ensures var r := Issue(secret, userId, now, expiresIn, ms);
      && (r.Ok? <==> secret != "" && Lifetime(expiresIn, ms).Some?)
      && (r.Ok? ==> r.value == Sign(secret, Claims(userId, now + Lifetime(expiresIn, ms).value)))
      && (secret == "" ==> r == Err(NoSecretMessage))
      && (r.Err? ==> r.error in {NoSecretMessage, ExpiresInTypeMessage, ExpiresInTimespanMessage})
      && (secret != "" && (expiresIn.None? || expiresIn.value == "") ==> r == Err(ExpiresInTypeMessage))
  {
  }

  /** `jwt.verify(token, secret).userId` at time `now`, or `None` where
      `jwt.verify` throws: empty secret, malformed token, wrong signature,
      or `now >= exp`. */
  function Verify(secret: string, token: string, now: nat): Option<nat> {
    var parts := Split(token, '.');
    if secret == "" || |parts| != 3 then None
    else
      match (ParseDecimal(parts[0]), ParseDecimal(parts[1]), ParseDecimal(parts[2]))
      case (Some(u), Some(e), Some(m)) =>
        if m == Mac(secret, Claims(u, e)) && now < e then Some(u) else None
      case _ => None
  }

  /** Issued tokens are written in digits and dots only: they hold no space. */
  lemma SignHasNoSpace(secret: string, c: Claims)
    ensures ' ' !in Sign(secret, c)
  {
    DecimalHasNo(c.userId, ' ');
    DecimalHasNo(c.exp, ' ');
    DecimalHasNo(Mac(secret, c), ' ');
  }

  lemma SplitSigned(secret: string, c: Claims)
    ensures Split(Sign(secret, c), '.') == [Decimal(c.userId), Decimal(c.exp), Decimal(Mac(secret, c))]
  {
    var a, b, m := Decimal(c.userId), Decimal(c.exp), Decimal(Mac(secret, c));
    DecimalHasNo(c.userId, '.');
    DecimalHasNo(c.exp, '.');
    DecimalHasNo(Mac(secret, c), '.');
    assert Sign(secret, c) == a + ['.'] + (b + ['.'] + m);
    SplitAtSeparator(a, '.', b + ['.'] + m);
    SplitAtSeparator(b, '.', m);
    SplitWithoutSeparator(m, '.');
  }

  /** A token verifies under the secret that signed it until it expires. */
  lemma VerifySigned(secret: string, c: Claims, now: nat)
    requires secret != ""
    ensures Verify(secret, Sign(secret, c), now) == if now < c.exp then Some(c.userId) else None
  {
    SplitSigned(secret, c);
    ParseDecimalOfDecimal(c.userId);
    ParseDecimalOfDecimal(c.exp);
    ParseDecimalOfDecimal(Mac(secret, c));
  }

  /** Verification accepts only strings that signing produced, with an
      expiry still in the future. */
  lemma VerifyOnlySigned(secret: string, token: string, now: nat, userId: nat)
    requires Verify(secret, token, now) == Some(userId)
    ensures exists exp :: now < exp && token == Sign(secret, Claims(userId, exp))
  {
    var parts := Split(token, '.');
    var e := ParseDecimal(parts[1]).value;
    DecimalOfParseDecimal(parts[0], userId);
    DecimalOfParseDecimal(parts[1], e);
    DecimalOfParseDecimal(parts[2], ParseDecimal(parts[2]).value);
    JoinSplit(token, '.');
    assert parts[1..][1..] == [parts[2]];
    assert Join(parts[1..], ".") == parts[1] + "." + parts[2];
    assert token == Sign(secret, Claims(userId, e));
  }
}
