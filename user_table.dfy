/** The `users` table as Sequelize presents it to the resolvers and the
    controller: `findOne({ where: { email } })`, `findByPk`, `User.create`
    and `instance.update`.

    `id`, `createdAt` and `updatedAt` come from a logical clock that
    advances on every write, so `createdAt` strictly increases along the
    table. A table with an `outage` fails every query with that message,
    which stands for an unreachable database. */
module UserTable {
  import opened Common
  import opened Crypto
  import opened UserModel

  /** What a query throws when the binding it is called on is undefined:
      `User.findByPk(...)` with no `User` in scope raises a ReferenceError
      with this message. Such a query is modelled as an outage with it. */
  const UnboundModelError := "User is not defined"

  datatype DbError =
    | Unavailable(reason: string)
    | Invalid(violations: seq<Violation>)
    | UniqueViolation(field: string)

  /** The text of a Sequelize validation error item: `<type>: <message>`. */
  function ViolationMessage(v: Violation): string {
    if v.check == "notNull" then "notNull Violation: user." + v.field + " cannot be null"
    else "Validation error: Validation " + v.check + " on " + v.field + " failed"
  }

  /** `error.message` of what a failed query throws. */
  function ErrorMessage(e: DbError): string {
    match e
    case Unavailable(reason) => reason
    case Invalid(vs) => if vs == [] then "Validation error" else Join(Map(vs, ViolationMessage), ",\n")
    case UniqueViolation(_) => "Validation error"
  }

  /** The two unique columns a row is looked up by: `findOne({ where: { email } })`
      and `findByPk(id)`. */
  datatype Key = ByEmail(email: string) | ById(id: nat)

  predicate HasKey(u: User, key: Key) {
    match key
    case ByEmail(e) => u.email == e
    case ById(id) => u.id == id
  }

  /** The position of the first row with this key, if any. */
  function IndexOf(rows: seq<User>, key: Key): (r: Option<nat>)
    ensures r.Some? ==> r.value < |rows| && HasKey(rows[r.value], key)
    ensures r.Some? ==> forall i :: 0 <= i < r.value ==> !HasKey(rows[i], key)
    ensures r.None? <==> forall i :: 0 <= i < |rows| ==> !HasKey(rows[i], key)
    decreases |rows|
  {
    if rows == [] then None
    else if HasKey(rows[0], key) then Some(0)
    else
      match IndexOf(rows[1..], key)
      case None => None
      case Some(i) => Some(i + 1)
  }

  /** The position of the row with this e-mail, if any. */
  function IndexOfEmail(rows: seq<User>, email: string): (r: Option<nat>)
    ensures r.Some? ==> r.value < |rows| && rows[r.value].email == email
    ensures r.None? <==> forall i :: 0 <= i < |rows| ==> rows[i].email != email
  {
    IndexOf(rows, ByEmail(email))
  }

  /** The position of the row with this primary key, if any. */
  function IndexOfId(rows: seq<User>, id: nat): (r: Option<nat>)
    ensures r.Some? ==> r.value < |rows| && rows[r.value].id == id
    ensures r.None? <==> forall i :: 0 <= i < |rows| ==> rows[i].id != id
  {
    IndexOf(rows, ById(id))
  }

  /** The validated attributes of a stored row; the password is checked
      before it is hashed, so a stored row only has to hold a hash. */
  predicate RowValid(u: User, isEmail: string -> bool) {
    && isEmail(u.email)
    && u.password.Hashed?
    && NameMinLength <= TextLength(u.firstName) <= NameMaxLength
    && NameMinLength <= TextLength(u.lastName) <= NameMaxLength
    && (u.phone.Some? ==> PhoneMinLength <= TextLength(u.phone.value) <= PhoneMaxLength)
  }

  /** What every state of the table satisfies: e-mails are unique, rows are
      in creation order, the primary key is the creation stamp, stamps lie
      before the clock, and every row passed its validators. */
  ghost predicate WellFormed(rows: seq<User>, clock: nat, isEmail: string -> bool) {
    && (forall i, j :: 0 <= i < j < |rows| ==> rows[i].email != rows[j].email)
    && (forall i, j :: 0 <= i < j < |rows| ==> rows[i].createdAt < rows[j].createdAt)
    && (forall i :: 0 <= i < |rows| ==>
          rows[i].id == rows[i].createdAt <= rows[i].updatedAt < clock && RowValid(rows[i], isEmail))
  }

  predicate IdsUnique(rows: seq<User>) {
    forall i, j :: 0 <= i < |rows| && 0 <= j < |rows| && rows[i].id == rows[j].id ==> i == j
  }

  /** Primary keys are unique in a well-formed table. */
  lemma WellFormedIdsUnique(rows: seq<User>, clock: nat, isEmail: string -> bool)
    requires WellFormed(rows, clock, isEmail)
    ensures IdsUnique(rows)
  {
  }

  /** The outcome of one write: what the call returns and the table after it. */
  datatype Write = Write(result: Result<User, DbError>, rows: seq<User>, clock: nat)

  /** `User.create(d)`: validators first, then the query, which the unique
      index on `email` can refuse. */
  function CreateSpec(rows: seq<User>, clock: nat, outage: Option<string>, isEmail: string -> bool,
                      d: Draft, salt: nat): Write
  {
    var vs := CreateViolations(d, isEmail);
    if vs != [] then Write(Err(Invalid(vs)), rows, clock)
    else if outage.Some? then Write(Err(Unavailable(outage.value)), rows, clock)
    else if IndexOfEmail(rows, d.email).Some? then Write(Err(UniqueViolation("email")), rows, clock)
    else
      var u := NewRow(d, clock, salt);
      Write(Ok(u), rows + [u], clock + 1)
  }

  /** `instance.update(p)` on the stored row `rows[k]`: nothing is sent when
      no attribute changes; otherwise the changed attributes are validated,
      the `beforeUpdate` hook runs and the row is written with a new
      `updatedAt`. */
  function UpdateSpec(rows: seq<User>, clock: nat, outage: Option<string>, k: nat, p: Patch, salt: nat): Write
    requires k < |rows|
  {
    var u := rows[k];
    if !Changed(u, p) then Write(Ok(u), rows, clock)
    else
      var vs := UpdateViolations(u, p);
      if vs != [] then Write(Err(Invalid(vs)), rows, clock)
      else if outage.Some? then Write(Err(Unavailable(outage.value)), rows, clock)
      else
        var v := Patched(u, p, salt, clock);
        Write(Ok(v), rows[k := v], clock + 1)
  }

  /** Creation either fails and changes nothing, or appends exactly one
      active row with the draft's attributes that accepts exactly the
      draft's password. It succeeds exactly when the draft is valid, the
      database is up and no row has the e-mail. */
  lemma CreateSpecOutcome(rows: seq<User>, clock: nat, outage: Option<string>, isEmail: string -> bool,
                          d: Draft, salt: nat, candidate: string)
    ensures var w := CreateSpec(rows, clock, outage, isEmail, d, salt);
      && (w.result.Ok? <==>
            CreateViolations(d, isEmail) == [] && outage.None?
            && forall i :: 0 <= i < |rows| ==> rows[i].email != d.email)
      && (w.result.Err? ==> w.rows == rows && w.clock == clock)
      && (w.result.Ok? ==>
            && w.rows == rows + [w.result.value]
            && var u := w.result.value;
               u.email == d.email && u.firstName == d.firstName && u.lastName == d.lastName
               && u.phone == d.phone && u.address == d.address && u.role == d.role
               && u.isActive && u.lastLogin.None? && u.profileImage.None?
               && (ComparePassword(u, candidate) <==> candidate == d.password))
  {
    var w := CreateSpec(rows, clock, outage, isEmail, d, salt);
    if w.result.Ok? {
      NewRowFacts(d, isEmail, clock, salt, candidate);
    }
  }

  lemma CreateSpecWellFormed(rows: seq<User>, clock: nat, outage: Option<string>, isEmail: string -> bool,
                             d: Draft, salt: nat)
    requires WellFormed(rows, clock, isEmail)
    ensures var w := CreateSpec(rows, clock, outage, isEmail, d, salt);
      WellFormed(w.rows, w.clock, isEmail)
  {
    var w := CreateSpec(rows, clock, outage, isEmail, d, salt);
    if w.result.Ok? {
      CreateViolationsNone(d, isEmail);
      NewRowFacts(d, isEmail, clock, salt, "");
      AppendWellFormed(rows, clock, isEmail, NewRow(d, clock, salt));
    }
  }

  /** Appending a valid row stamped with the clock, whose e-mail is new,
      keeps the table well formed once the clock advances. */
  lemma AppendWellFormed(rows: seq<User>, clock: nat, isEmail: string -> bool, u: User)
    requires WellFormed(rows, clock, isEmail)
    requires forall i :: 0 <= i < |rows| ==> rows[i].email != u.email
    requires u.id == u.createdAt == u.updatedAt == clock && RowValid(u, isEmail)
    ensures WellFormed(rows + [u], clock + 1, isEmail)
  {
    var r := rows + [u];
    forall i | 0 <= i < |r| ensures r[i].id == r[i].createdAt <= r[i].updatedAt < clock + 1 && RowValid(r[i], isEmail) {
      if i < |rows| { assert r[i] == rows[i]; }
    }
    forall i, j | 0 <= i < j < |r| ensures r[i].email != r[j].email && r[i].createdAt < r[j].createdAt {
      assert r[i] == rows[i];
      if j < |rows| { assert r[j] == rows[j]; }
    }
  }

  /** An update changes at most the row it was given; when it fails, or
      when no attribute changes, nothing is written at all. */
  lemma UpdateSpecOutcome(rows: seq<User>, clock: nat, outage: Option<string>, k: nat, p: Patch, salt: nat)
    requires k < |rows|
    ensures var w := UpdateSpec(rows, clock, outage, k, p, salt);
      && |w.rows| == |rows|
      && (forall i :: 0 <= i < |rows| && i != k ==> w.rows[i] == rows[i])
      && (w.result.Err? || !Changed(rows[k], p) ==> w.rows == rows && w.clock == clock)
      && (w.result.Ok? ==> w.rows[k] == w.result.value)
      && (w.result.Ok? && Changed(rows[k], p) ==> w.result.value == Patched(rows[k], p, salt, clock))
      && (w.result.Err? <==> Changed(rows[k], p) && (UpdateViolations(rows[k], p) != [] || outage.Some?))
  {
  }

  lemma UpdateSpecWellFormed(rows: seq<User>, clock: nat, outage: Option<string>, isEmail: string -> bool,
                             k: nat, p: Patch, salt: nat)
    requires WellFormed(rows, clock, isEmail) && k < |rows|
    ensures var w := UpdateSpec(rows, clock, outage, k, p, salt);
      WellFormed(w.rows, w.clock, isEmail)
  {
    var w := UpdateSpec(rows, clock, outage, k, p, salt);
    if w.rows != rows {
      PatchedRowValid(rows[k], p, salt, clock, isEmail);
      ReplaceWellFormed(rows, clock, isEmail, k, Patched(rows[k], p, salt, clock));
    }
  }

  /** A row that passed its validators and then the update validators is
      still valid after the update, and keeps its identity. */
  lemma PatchedRowValid(u: User, p: Patch, salt: nat, stamp: nat, isEmail: string -> bool)
    requires RowValid(u, isEmail) && UpdateViolations(u, p) == []
    ensures var v := Patched(u, p, salt, stamp);
      RowValid(v, isEmail) && v.id == u.id && v.email == u.email && v.createdAt == u.createdAt
  {
    assert CheckName("firstName", p.firstName, u.firstName) == [];
    assert CheckName("lastName", p.lastName, u.lastName) == [];
  }

  /** Replacing a row by a valid one with the same id, e-mail and creation
      stamp, written at the clock, keeps the table well formed once the
      clock advances. */
  lemma ReplaceWellFormed(rows: seq<User>, clock: nat, isEmail: string -> bool, k: nat, v: User)
    requires WellFormed(rows, clock, isEmail) && k < |rows|
    requires v.id == rows[k].id && v.email == rows[k].email && v.createdAt == rows[k].createdAt
    requires v.updatedAt == clock && RowValid(v, isEmail)
    ensures WellFormed(rows[k := v], clock + 1, isEmail)
  {
    var r := rows[k := v];
    forall i | 0 <= i < |r| ensures r[i].id == r[i].createdAt <= r[i].updatedAt < clock + 1 && RowValid(r[i], isEmail) {
    }
    forall i, j | 0 <= i < j < |r| ensures r[i].email != r[j].email && r[i].createdAt < r[j].createdAt {
      assert r[i].email == rows[i].email && r[i].createdAt == rows[i].createdAt;
      assert r[j].email == rows[j].email && r[j].createdAt == rows[j].createdAt;
    }
  }

  /** A row read from a well-formed table is found again by its primary key. */
  lemma RowOfUser(rows: seq<User>, clock: nat, isEmail: string -> bool, u: User)
    requires WellFormed(rows, clock, isEmail) && u in rows
    ensures IndexOfId(rows, u.id).Some? && rows[IndexOfId(rows, u.id).value] == u
  {
    var j :| 0 <= j < |rows| && rows[j] == u;
    WellFormedIdsUnique(rows, clock, isEmail);
  }

  /** The in-memory table. */
  class Table {
    var rows: seq<User>
    var clock: nat
    const outage: Option<string>
    const isEmail: string -> bool

    ghost predicate Valid()
      reads this
    {
      WellFormed(rows, clock, isEmail)
    }

    constructor (outage: Option<string>, isEmail: string -> bool)
      ensures Valid() && rows == [] && clock == 0
      ensures this.outage == outage && this.isEmail == isEmail
    {
      rows := [];
      clock := 0;
      this.outage := outage;
      this.isEmail := isEmail;
    }

    /** `findOne({ where: { email } })`. */
    function FindByEmail(email: string): (r: Result<Option<User>, DbError>)
      reads this
      ensures outage.Some? <==> r.Err?
      ensures r.Ok? ==> (r.value.Some? <==> exists i :: 0 <= i < |rows| && rows[i].email == email)
      ensures r.Ok? && r.value.Some? ==> r.value.value in rows && r.value.value.email == email
    {
      if outage.Some? then Err(Unavailable(outage.value))
      else
        match IndexOfEmail(rows, email)
        case None => Ok(None)
        case Some(i) => Ok(Some(rows[i]))
    }

    /** `findByPk(id)`. */
    function FindByPk(id: nat): (r: Result<Option<User>, DbError>)
      reads this
      ensures outage.Some? <==> r.Err?
      ensures r.Ok? ==> (r.value.Some? <==> exists i :: 0 <= i < |rows| && rows[i].id == id)
      ensures r.Ok? && r.value.Some? ==> r.value.value in rows && r.value.value.id == id
    {
      if outage.Some? then Err(Unavailable(outage.value))
      else
        match IndexOfId(rows, id)
        case None => Ok(None)
        case Some(i) => Ok(Some(rows[i]))
    }

    /** `User.create(d)`. */
    method Create(d: Draft, salt: nat) returns (r: Result<User, DbError>)
      requires Valid()
      modifies this
      ensures Valid()
      ensures Write(r, rows, clock) == CreateSpec(old(rows), old(clock), outage, isEmail, d, salt)
    {
      CreateSpecWellFormed(rows, clock, outage, isEmail, d, salt);
      var vs := CreateViolations(d, isEmail);
      if vs != [] {
        return Err(Invalid(vs));
      }
      if outage.Some? {
        return Err(Unavailable(outage.value));
      }
      if IndexOfEmail(rows, d.email).Some? {
        return Err(UniqueViolation("email"));
      }
      var u := NewRow(d, clock, salt);
      rows := rows + [u];
      clock := clock + 1;
      r := Ok(u);
    }

    /** `u.update(p)` on a row `u` just read from the table. */
    method Update(u: User, p: Patch, salt: nat) returns (r: Result<User, DbError>)
      requires Valid() && u in rows
      modifies this
      ensures Valid()
      ensures var k := IndexOfId(old(rows), u.id).value;
        k < |old(rows)| && old(rows)[k] == u
        && Write(r, rows, clock) == UpdateSpec(old(rows), old(clock), outage, k, p, salt)
    {
      var rs, stamp := rows, clock;
      RowOfUser(rs, stamp, isEmail, u);
      var k := IndexOfId(rs, u.id).value;
      UpdateSpecWellFormed(rs, stamp, outage, isEmail, k, p, salt);
      if !Changed(u, p) {
        return Ok(u);
      }
      var vs := UpdateViolations(u, p);
      if vs != [] {
        return Err(Invalid(vs));
      }
      if outage.Some? {
        return Err(Unavailable(outage.value));
      }
      var v := Patched(u, p, salt, stamp);
      rows, clock := rs[k := v], stamp + 1;
      r := Ok(v);
    }
  }
}
