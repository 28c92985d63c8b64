/** The `user` model: its attributes, the validators Sequelize runs on
    them, the password hooks, `comparePassword` and `getPublicProfile`. */
module UserModel {
  import opened Common
  import opened Crypto

  datatype Role = Customer | Admin

  /** The attribute `password` holds either what was assigned to it or,
      after a hook ran, a bcrypt hash. */
  datatype StoredPassword = Plain(text: string) | Hashed(hash: PasswordHash)

  /** One row of the `users` table. `id`, `createdAt` and `updatedAt` are
      drawn from the table's logical clock (see `UserTable`). */
  datatype User = User(
    id: nat,
    email: string,
    password: StoredPassword,
    firstName: string,
    lastName: string,
    role: Role,
    isActive: bool,
    lastLogin: Option<nat>,
    profileImage: Option<string>,
    phone: Option<string>,
    address: Option<string>,
    createdAt: nat,
    updatedAt: nat)

  /** What `getPublicProfile` returns: every attribute but `password`. */
  datatype PublicUser = PublicUser(
    id: nat,
    email: string,
    firstName: string,
    lastName: string,
    role: Role,
    isActive: bool,
    lastLogin: Option<nat>,
    profileImage: Option<string>,
    phone: Option<string>,
    address: Option<string>,
    createdAt: nat,
    updatedAt: nat)

  /** `getPublicProfile`: the row as JSON with `password` deleted. */
  function PublicProfile(u: User): PublicUser {
    PublicUser(u.id, u.email, u.firstName, u.lastName, u.role, u.isActive, u.lastLogin,
               u.profileImage, u.phone, u.address, u.createdAt, u.updatedAt)
  }

  /** Two rows have the same public profile exactly when they differ at
      most in their password: the projection drops that attribute and
      keeps every other. */
  lemma PublicProfileDropsOnlyPassword(u: User, v: User)
    ensures PublicProfile(u) == PublicProfile(v) <==> u.(password := v.password) == v
  {
  }

  /** `comparePassword(candidate)`: `bcrypt.compare` against the stored
      value, which never accepts a value that is not a hash. */
  predicate ComparePassword(u: User, candidate: string) {
    u.password.Hashed? && Compare(candidate, u.password.hash)
  }

  // ---------------------------------------------------------------- validators

  /** One failed check, as Sequelize reports it: the attribute and the
      validator (`len`, `isEmail`, `notNull`). */
  datatype Violation = Violation(field: string, check: string)

  const PasswordMinLength: nat := 6
  const PasswordMaxLength: nat := 100
  const NameMinLength: nat := 2
  const NameMaxLength: nat := 50
  const PhoneMinLength: nat := 10
  const PhoneMaxLength: nat := 15

  function CheckLength(field: string, value: string, lo: nat, hi: nat): (r: seq<Violation>)
    ensures r == [] <==> lo <= TextLength(value) <= hi
  {
    if lo <= TextLength(value) <= hi then [] else [Violation(field, "len")]
  }

  /** The attributes handed to `User.create`. `role` is always given at
      both call sites, so the attribute default `customer` never applies. */
  datatype Draft = Draft(
    email: string,
    password: string,
    firstName: string,
    lastName: string,
    phone: Option<string>,
    address: Option<string>,
    role: Role)

  /** The validators that reject a new row, in attribute order; `isEmail`
      is validator.js's e-mail check, which this model leaves abstract. */
  function CreateViolations(d: Draft, isEmail: string -> bool): seq<Violation> {
    (if isEmail(d.email) then [] else [Violation("email", "isEmail")])
    + CheckLength("password", d.password, PasswordMinLength, PasswordMaxLength)
    + CheckLength("firstName", d.firstName, NameMinLength, NameMaxLength)
    + CheckLength("lastName", d.lastName, NameMinLength, NameMaxLength)
    + (if d.phone.Some? then CheckLength("phone", d.phone.value, PhoneMinLength, PhoneMaxLength) else [])
  }

  /** The attribute constraints a new row must meet. */
  lemma CreateViolationsNone(d: Draft, isEmail: string -> bool)
    ensures CreateViolations(d, isEmail) == [] <==>
      && isEmail(d.email)
      && PasswordMinLength <= TextLength(d.password) <= PasswordMaxLength
      && NameMinLength <= TextLength(d.firstName) <= NameMaxLength
      && NameMinLength <= TextLength(d.lastName) <= NameMaxLength
      && (d.phone.Some? ==> PhoneMinLength <= TextLength(d.phone.value) <= PhoneMaxLength)
  {
  }

  /** The `beforeCreate` hook: a non-empty password is replaced by its hash. */
  function BeforeCreate(password: string, salt: nat): StoredPassword {
    if password != "" then Hashed(Hash(password, salt)) else Plain(password)
  }

  /** The row `User.create` inserts once validation passed: the hook has run,
      `isActive` takes its default `true`, and the clock gives id and stamps. */
  function NewRow(d: Draft, stamp: nat, salt: nat): User {
    User(stamp, d.email, BeforeCreate(d.password, salt), d.firstName, d.lastName, d.role,
         true, None, None, d.phone, d.address, stamp, stamp)
  }

  /** A row created from a valid draft stores a hash, never the plaintext,
      and accepts exactly its own password; it is active with the draft's role. */
  lemma NewRowFacts(d: Draft, isEmail: string -> bool, stamp: nat, salt: nat, candidate: string)
    requires CreateViolations(d, isEmail) == []
    ensures NewRow(d, stamp, salt).password.Hashed?
    ensures ComparePassword(NewRow(d, stamp, salt), candidate) <==> candidate == d.password
    ensures NewRow(d, stamp, salt).isActive && NewRow(d, stamp, salt).role == d.role
    ensures NewRow(d, stamp, salt).lastLogin.None?
  {
    CreateViolationsNone(d, isEmail);
  }

  // ---------------------------------------------------------------- updates

  /** The argument of `instance.update(...)`: a key set to `Undefined` or
      `None` is absent from the update object. */
  datatype Patch = Patch(
    firstName: Input,
    lastName: Input,
    phone: Input,
    address: Input,
    profileImage: Input,
    password: Option<string>,
    isActive: Option<bool>,
    lastLogin: Option<nat>)

  const NoChange := Patch(Undefined, Undefined, Undefined, Undefined, Undefined, None, None, None)

  /** The value of a nullable string attribute after `set`. */
  function Assigned(v: Input, current: Option<string>): Option<string> {
    match v
    case Undefined => current
    case Null => None
    case Str(s) => Some(s)
  }

  /** A non-nullable string attribute is changed by `null` or by a different string. */
  predicate NameChanged(v: Input, current: string) {
    v.Null? || (v.Str? && v.s != current)
  }

  /** Sequelize's `instance.changed()`: some attribute of the patch differs
      from the stored value. A new password always differs from the stored
      hash. */
  predicate Changed(u: User, p: Patch) {
    || NameChanged(p.firstName, u.firstName)
    || NameChanged(p.lastName, u.lastName)
    || Assigned(p.phone, u.phone) != u.phone
    || Assigned(p.address, u.address) != u.address
    || Assigned(p.profileImage, u.profileImage) != u.profileImage
    || p.password.Some?
    || (p.isActive.Some? && p.isActive.value != u.isActive)
    || (p.lastLogin.Some? && Some(p.lastLogin.value) != u.lastLogin)
  }

  function CheckName(field: string, v: Input, current: string): (r: seq<Violation>)
    ensures r == [] <==> !NameChanged(v, current) || (v.Str? && NameMinLength <= TextLength(v.s) <= NameMaxLength)
  {
    if !NameChanged(v, current) then []
    else if v.Null? then [Violation(field, "notNull")]
    else CheckLength(field, v.s, NameMinLength, NameMaxLength)
  }

  /** The validators Sequelize runs on `save`: only on the changed attributes. */
  function UpdateViolations(u: User, p: Patch): seq<Violation> {
    (if p.password.Some? then CheckLength("password", p.password.value, PasswordMinLength, PasswordMaxLength) else [])
    + CheckName("firstName", p.firstName, u.firstName)
    + CheckName("lastName", p.lastName, u.lastName)
    + (if p.phone.Str? && Some(p.phone.s) != u.phone
       then CheckLength("phone", p.phone.s, PhoneMinLength, PhoneMaxLength) else [])
  }

  /** The `beforeUpdate` hook: the password is re-hashed only when it changed. */
  function BeforeUpdate(p: Patch, stored: StoredPassword, salt: nat): StoredPassword {
    if p.password.Some? then Hashed(Hash(p.password.value, salt)) else stored
  }

  /** The row written by `save` at time `stamp`. */
  function Patched(u: User, p: Patch, salt: nat, stamp: nat): User {
    u.(firstName := if p.firstName.Str? then p.firstName.s else u.firstName,
       lastName := if p.lastName.Str? then p.lastName.s else u.lastName,
       phone := Assigned(p.phone, u.phone),
       address := Assigned(p.address, u.address),
       profileImage := Assigned(p.profileImage, u.profileImage),
       password := BeforeUpdate(p, u.password, salt),
       isActive := if p.isActive.Some? then p.isActive.value else u.isActive,
       lastLogin := if p.lastLogin.Some? then p.lastLogin else u.lastLogin,
       updatedAt := stamp)
  }

  /** An update keeps id, e-mail, role and creation time, keeps the stored
      hash unless a password is supplied, and then stores the hash of the
      new one. */
  lemma PatchedKeepsIdentity(u: User, p: Patch, salt: nat, stamp: nat, candidate: string)
    requires u.password.Hashed?
    ensures var v := Patched(u, p, salt, stamp);
      && v.id == u.id && v.email == u.email && v.role == u.role && v.createdAt == u.createdAt
      && (p.password.None? ==> v.password == u.password)
      && (p.password.Some? ==> v.password.Hashed? && (ComparePassword(v, candidate) <==> candidate == p.password.value))
  {
  }
}
