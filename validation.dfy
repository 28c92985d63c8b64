/** The REST request validators: five express-validator chains over the
    JSON body and the `handleValidationErrors` step that ends each of them.

    A chain entry names one body field and runs, in order: `.optional()`
    (which skips the field only when it is `undefined`), a `.trim()`
    sanitizer, one validator with its `.withMessage`, and possibly a
    `.normalizeEmail()` sanitizer. Validators see the field as express-
    validator converts it to text (`undefined` and `null` become ""), and
    sanitizers write their result back into the body the controller reads.
    The e-mail format check and the e-mail normaliser are library defined
    and are parameters here. */
module Validation {
  import opened Common

  /** `req.body`: a field that is absent reads as `undefined`. */
  type Body = map<string, Input>

  function Field(b: Body, name: string): (v: Input)
    ensures name !in b ==> v.Undefined?
  {
    if name in b then b[name] else Undefined
  }

  datatype Rule = IsEmail | MinLength(min: nat) | LengthBetween(min: nat, max: nat) | MaxLength(max: nat) | NotEmpty

  datatype FieldChain = FieldChain(
    field: string, optional: bool, trim: bool, rule: Rule, normalizeEmail: bool, message: Message)

  /** The `.withMessage` texts. */
  datatype Message =
    | InvalidEmail | ShortPassword | ShortAdminPassword | FirstNameLength | LastNameLength | PhoneLength
    | MissingAdminCode | MissingPassword | MissingCurrentPassword | ShortNewPassword | LongAddress

  function MessageText(m: Message): string {
    match m
    case InvalidEmail => "Please provide a valid email address"
    case ShortPassword => "Password must be at least 6 characters long"
    case ShortAdminPassword => "Admin password must be at least 8 characters long"
    case FirstNameLength => "First name must be between 2 and 50 characters"
    case LastNameLength => "Last name must be between 2 and 50 characters"
    case PhoneLength => "Phone number must be between 10 and 15 characters"
    case MissingAdminCode => "Admin registration code is required"
    case MissingPassword => "Password is required"
    case MissingCurrentPassword => "Current password is required"
    case ShortNewPassword => "New password must be at least 6 characters long"
    case LongAddress => "Address must be less than 500 characters"
  }

  datatype FieldError = FieldError(field: string, message: string)

  /** The result of running chains: the errors in order and the sanitized body. */
  datatype Checked = Checked(errors: seq<FieldError>, body: Body)

  /** `handleValidationErrors`: a 400 response, or `next()` with the body. */
  datatype Outcome = Next(body: Body) | Reject(status: nat, message: string, errors: seq<FieldError>)

  predicate Holds(rule: Rule, s: string, isEmail: string -> bool) {
    match rule
    case IsEmail => isEmail(s)
    case MinLength(min) => min <= TextLength(s)
    case LengthBetween(min, max) => min <= TextLength(s) <= max
    case MaxLength(max) => TextLength(s) <= max
    case NotEmpty => s != ""
  }

  /** The text the validator of `c` checks. */
  function CheckedText(c: FieldChain, v: Input): (s: string)
    ensures !c.trim ==> s == InputText(v)
    ensures c.trim ==> s == Trim(InputText(v))
  {
    if c.trim then Trim(InputText(v)) else InputText(v)
  }

  predicate Skipped(c: FieldChain, v: Input) {
    c.optional && v.Undefined?
  }

  predicate Fails(c: FieldChain, v: Input, isEmail: string -> bool) {
    !Skipped(c, v) && !Holds(c.rule, CheckedText(c, v), isEmail)
  }

  /** The value the chain leaves in the body: a field that is not there
      stays absent, otherwise the sanitizers' output is written back. */
  function Sanitized(c: FieldChain, v: Input, normalize: string -> string): (r: Input)
    ensures v.Undefined? ==> r == v
    ensures !v.Undefined? && !c.trim && !c.normalizeEmail ==> r == v
    ensures !v.Undefined? && c.trim && !c.normalizeEmail ==> r == Str(Trim(InputText(v)))
  {
    if v.Undefined? then v
    else if c.normalizeEmail then Str(normalize(CheckedText(c, v)))
    else if c.trim then Str(CheckedText(c, v))
    else v
  }

  /** What one chain reports: its field and message when its check fails. */
  function ChainErrors(c: FieldChain, v: Input, isEmail: string -> bool): (errors: seq<FieldError>)
    ensures |errors| <= 1
    ensures errors == [] <==> !Fails(c, v, isEmail)
    ensures errors != [] ==> errors[0] == FieldError(c.field, MessageText(c.message))
  {
    if Fails(c, v, isEmail) then [FieldError(c.field, MessageText(c.message))] else []
  }

  /** The body after one chain: only that chain's field may change. */
  function ChainBody(c: FieldChain, b: Body, normalize: string -> string): (r: Body)
    ensures Field(r, c.field) == Sanitized(c, Field(b, c.field), normalize)
    ensures forall f :: f != c.field ==> Field(r, f) == Field(b, f)
  {
    var v := Field(b, c.field);
    if v.Undefined? then b else b[c.field := Sanitized(c, v, normalize)]
  }

  function RunChain(c: FieldChain, b: Body, isEmail: string -> bool, normalize: string -> string): Checked {
    Checked(ChainErrors(c, Field(b, c.field), isEmail), ChainBody(c, b, normalize))
  }

  /** The chains run one after the other, each on the body the previous
      ones sanitized; the errors accumulate in chain order. */
  function Run(cs: seq<FieldChain>, b: Body, isEmail: string -> bool, normalize: string -> string): Checked
    decreases |cs|
  {
    if cs == [] then Checked([], b)
    else
      var h := RunChain(cs[0], b, isEmail, normalize);
      var t := Run(cs[1..], h.body, isEmail, normalize);
      Checked(h.errors + t.errors, t.body)
  }

  /** Reference list: one entry per failing chain, in chain order, each
      judged on the body as received. */
  function Failures(cs: seq<FieldChain>, b: Body, isEmail: string -> bool): seq<FieldError>
    decreases |cs|
  {
    if cs == [] then []
    else
      (if Fails(cs[0], Field(b, cs[0].field), isEmail) then [FieldError(cs[0].field, MessageText(cs[0].message))] else [])
      + Failures(cs[1..], b, isEmail)
  }

  predicate Distinct(cs: seq<FieldChain>) {
    forall i, j :: 0 <= i < j < |cs| ==> cs[i].field != cs[j].field
  }

  function HandleValidationErrors(c: Checked): (o: Outcome)
    ensures o.Next? <==> c.errors == []
    ensures o.Next? ==> o.body == c.body
    ensures o.Reject? ==> o.status == 400 && o.message == "Validation failed" && o.errors == c.errors
  {
    if c.errors != [] then Reject(400, "Validation failed", c.errors) else Next(c.body)
  }

  function Validate(cs: seq<FieldChain>, b: Body, isEmail: string -> bool, normalize: string -> string): Outcome {
    HandleValidationErrors(Run(cs, b, isEmail, normalize))
  }

  // ---------------------------------------------------------------- the chains

  const EmailChain := FieldChain("email", false, false, IsEmail, true, InvalidEmail)
  const FirstNameChain := FieldChain("firstName", false, true, LengthBetween(2, 50), false, FirstNameLength)
  const LastNameChain := FieldChain("lastName", false, true, LengthBetween(2, 50), false, LastNameLength)
  const PhoneChain := FieldChain("phone", true, false, LengthBetween(10, 15), false, PhoneLength)
  const CustomerPasswordChain := FieldChain("password", false, false, MinLength(6), false, ShortPassword)
  const AdminPasswordChain := FieldChain("password", false, false, MinLength(8), false, ShortAdminPassword)
  const AdminCodeChain := FieldChain("adminCode", false, false, NotEmpty, false, MissingAdminCode)
  const LoginPasswordChain := FieldChain("password", false, false, NotEmpty, false, MissingPassword)
  const CurrentPasswordChain := FieldChain("currentPassword", false, false, NotEmpty, false, MissingCurrentPassword)
  const NewPasswordChain := FieldChain("newPassword", false, false, MinLength(6), false, ShortNewPassword)
  const OptionalFirstNameChain := FirstNameChain.(optional := true)
  const OptionalLastNameChain := LastNameChain.(optional := true)
  const AddressChain := FieldChain("address", true, true, MaxLength(500), false, LongAddress)

  const CustomerRegistration: seq<FieldChain> :=
    [EmailChain, CustomerPasswordChain, FirstNameChain, LastNameChain, PhoneChain]

  const AdminRegistration: seq<FieldChain> :=
    [EmailChain, AdminPasswordChain, FirstNameChain, LastNameChain, AdminCodeChain]

  const Login: seq<FieldChain> := [EmailChain, LoginPasswordChain]

  const ChangePassword: seq<FieldChain> := [CurrentPasswordChain, NewPasswordChain]

  const ProfileUpdate: seq<FieldChain> :=
    [OptionalFirstNameChain, OptionalLastNameChain, PhoneChain, AddressChain]

  /** A name the registration and profile chains accept: 2 to 50 characters once trimmed. */
  predicate NameFits(v: Input) {
    2 <= TextLength(Trim(InputText(v))) <= 50
  }

  predicate PhoneFits(v: Input) {
    v.Undefined? || 10 <= TextLength(InputText(v)) <= 15
  }

  // ---------------------------------------------------------------- the runner against the reference

  /** Running the chains yields exactly the reference list of failures, and
      leaves each chain's field sanitized and every other field as it was,
      provided the chains name distinct fields. */
  lemma {:induction false} RunMatchesFailures(
    cs: seq<FieldChain>, b: Body, b0: Body, isEmail: string -> bool, normalize: string -> string)
    requires Distinct(cs)
    requires forall i :: 0 <= i < |cs| ==> Field(b, cs[i].field) == Field(b0, cs[i].field)
    ensures Run(cs, b, isEmail, normalize).errors == Failures(cs, b0, isEmail)
    ensures forall i :: 0 <= i < |cs| ==>
      Field(Run(cs, b, isEmail, normalize).body, cs[i].field) == Sanitized(cs[i], Field(b0, cs[i].field), normalize)
    ensures forall f :: (forall i :: 0 <= i < |cs| ==> cs[i].field != f) ==>
      Field(Run(cs, b, isEmail, normalize).body, f) == Field(b, f)
    decreases |cs|
  {
    if cs != [] {
      var h := RunChain(cs[0], b, isEmail, normalize);
      var rest := cs[1..];
      forall i | 0 <= i < |rest|
        ensures Field(h.body, rest[i].field) == Field(b0, rest[i].field)
      {
        assert rest[i] == cs[i + 1];
        assert Field(b, cs[i + 1].field) == Field(b0, cs[i + 1].field);
      }
      assert Distinct(rest) by {
        forall i, j | 0 <= i < j < |rest| ensures rest[i].field != rest[j].field {
          assert rest[i] == cs[i + 1] && rest[j] == cs[j + 1];
        }
      }
      RunMatchesFailures(rest, h.body, b0, isEmail, normalize);
      var r := Run(cs, b, isEmail, normalize);
      forall i | 0 <= i < |cs|
        ensures Field(r.body, cs[i].field) == Sanitized(cs[i], Field(b0, cs[i].field), normalize)
      {
        if i == 0 {
          forall k | 0 <= k < |rest| ensures rest[k].field != cs[0].field {
            assert rest[k] == cs[k + 1];
          }
        } else {
          assert cs[i] == rest[i - 1];
        }
      }
      forall f | (forall i :: 0 <= i < |cs| ==> cs[i].field != f)
        ensures Field(r.body, f) == Field(b, f)
      {
        forall k | 0 <= k < |rest| ensures rest[k].field != f {
          assert rest[k] == cs[k + 1];
        }
        assert cs[0].field != f;
      }
    }
  }

  /** The reference list is empty exactly when no chain fails. */
  lemma {:induction false} FailuresNone(cs: seq<FieldChain>, b: Body, isEmail: string -> bool)
    ensures Failures(cs, b, isEmail) == [] <==>
      forall i :: 0 <= i < |cs| ==> !Fails(cs[i], Field(b, cs[i].field), isEmail)
    decreases |cs|
  {
    if cs != [] {
      FailuresNone(cs[1..], b, isEmail);
      assert forall i :: 1 <= i < |cs| ==> cs[i] == cs[1..][i - 1];
    }
  }

  /** An entry is in the reference list exactly when it is the field and
      message of a failing chain. */
  lemma {:induction false} FailuresListed(cs: seq<FieldChain>, b: Body, isEmail: string -> bool, e: FieldError)
    ensures e in Failures(cs, b, isEmail) <==>
      exists i :: 0 <= i < |cs| && Fails(cs[i], Field(b, cs[i].field), isEmail)
                  && e == FieldError(cs[i].field, MessageText(cs[i].message))
    decreases |cs|
  {
    if cs != [] {
      FailuresListed(cs[1..], b, isEmail, e);
      if e in Failures(cs[1..], b, isEmail) {
        var i :| 0 <= i < |cs[1..]| && Fails(cs[1..][i], Field(b, cs[1..][i].field), isEmail)
                 && e == FieldError(cs[1..][i].field, MessageText(cs[1..][i].message));
        assert cs[i + 1] == cs[1..][i];
      }
      if exists i :: 0 <= i < |cs| && Fails(cs[i], Field(b, cs[i].field), isEmail)
                     && e == FieldError(cs[i].field, MessageText(cs[i].message)) {
        var i :| 0 <= i < |cs| && Fails(cs[i], Field(b, cs[i].field), isEmail)
                 && e == FieldError(cs[i].field, MessageText(cs[i].message));
        if i > 0 {
          assert cs[1..][i - 1] == cs[i];
        }
      }
    }
  }

  /** `handleValidationErrors` after distinct chains: `next` is reached
      exactly when no chain fails; otherwise the 400 response lists one
      entry per failing chain, in chain order. */
  lemma ValidateOutcome(cs: seq<FieldChain>, b: Body, isEmail: string -> bool, normalize: string -> string)
    requires Distinct(cs)
    ensures Validate(cs, b, isEmail, normalize).Next? <==>
      forall i :: 0 <= i < |cs| ==> !Fails(cs[i], Field(b, cs[i].field), isEmail)
    ensures Validate(cs, b, isEmail, normalize).Reject? ==>
      Validate(cs, b, isEmail, normalize) == Reject(400, "Validation failed", Failures(cs, b, isEmail))
  {
    RunMatchesFailures(cs, b, b, isEmail, normalize);
    FailuresNone(cs, b, isEmail);
  }

  lemma ValidateAccepts(cs: seq<FieldChain>, b: Body, isEmail: string -> bool, normalize: string -> string)
    requires Distinct(cs)
    ensures Validate(cs, b, isEmail, normalize).Next? <==> Failures(cs, b, isEmail) == []
  {
    RunMatchesFailures(cs, b, b, isEmail, normalize);
  }

  /** On `next`, each chain's field holds its sanitized value. */
  lemma ValidateSanitizes(cs: seq<FieldChain>, b: Body, isEmail: string -> bool, normalize: string -> string, i: nat)
    requires Distinct(cs) && i < |cs|
    requires Validate(cs, b, isEmail, normalize).Next?
    ensures Field(Validate(cs, b, isEmail, normalize).body, cs[i].field) == Sanitized(cs[i], Field(b, cs[i].field), normalize)
  {
    RunMatchesFailures(cs, b, b, isEmail, normalize);
  }

  predicate Passes(c: FieldChain, b: Body, isEmail: string -> bool) {
    !Fails(c, Field(b, c.field), isEmail)
  }

  lemma FailuresEmptyCons(c: FieldChain, cs: seq<FieldChain>, b: Body, isEmail: string -> bool)
    ensures Failures([c] + cs, b, isEmail) == [] <==> Passes(c, b, isEmail) && Failures(cs, b, isEmail) == []
  {
    assert ([c] + cs)[1..] == cs;
  }

  lemma FailuresEmptyOne(c: FieldChain, b: Body, isEmail: string -> bool)
    ensures Failures([c], b, isEmail) == [] <==> Passes(c, b, isEmail)
  {
    FailuresEmptyCons(c, [], b, isEmail);
    assert [c] + [] == [c];
  }

  /** Passing all five chains `[c0, c1, c2, c3, c4]` is passing each. */
  lemma FailuresEmptyFive(c0: FieldChain, c1: FieldChain, c2: FieldChain, c3: FieldChain, c4: FieldChain,
                          b: Body, isEmail: string -> bool)
    ensures Failures([c0, c1, c2, c3, c4], b, isEmail) == [] <==>
      Passes(c0, b, isEmail) && Passes(c1, b, isEmail) && Passes(c2, b, isEmail)
      && Passes(c3, b, isEmail) && Passes(c4, b, isEmail)
  {
    FailuresEmptyOne(c4, b, isEmail);
    FailuresEmptyCons(c3, [c4], b, isEmail);
    assert [c3] + [c4] == [c3, c4];
    FailuresEmptyCons(c2, [c3, c4], b, isEmail);
    assert [c2] + [c3, c4] == [c2, c3, c4];
    FailuresEmptyCons(c1, [c2, c3, c4], b, isEmail);
    assert [c1] + [c2, c3, c4] == [c1, c2, c3, c4];
    FailuresEmptyCons(c0, [c1, c2, c3, c4], b, isEmail);
    assert [c0] + [c1, c2, c3, c4] == [c0, c1, c2, c3, c4];
  }

  lemma FailuresEmptyFour(c0: FieldChain, c1: FieldChain, c2: FieldChain, c3: FieldChain,
                          b: Body, isEmail: string -> bool)
    ensures Failures([c0, c1, c2, c3], b, isEmail) == [] <==>
      Passes(c0, b, isEmail) && Passes(c1, b, isEmail) && Passes(c2, b, isEmail) && Passes(c3, b, isEmail)
  {
    FailuresEmptyOne(c3, b, isEmail);
    FailuresEmptyCons(c2, [c3], b, isEmail);
    assert [c2] + [c3] == [c2, c3];
    FailuresEmptyCons(c1, [c2, c3], b, isEmail);
    assert [c1] + [c2, c3] == [c1, c2, c3];
    FailuresEmptyCons(c0, [c1, c2, c3], b, isEmail);
    assert [c0] + [c1, c2, c3] == [c0, c1, c2, c3];
  }

  lemma FailuresEmptyTwo(c0: FieldChain, c1: FieldChain, b: Body, isEmail: string -> bool)
    ensures Failures([c0, c1], b, isEmail) == [] <==> Passes(c0, b, isEmail) && Passes(c1, b, isEmail)
  {
    FailuresEmptyOne(c1, b, isEmail);
    FailuresEmptyCons(c0, [c1], b, isEmail);
    assert [c0] + [c1] == [c0, c1];
  }

  // ---------------------------------------------------------------- the five chains

  /** Each of the five chains names every field once. */
  lemma ChainsDistinct()
    ensures Distinct(CustomerRegistration) && Distinct(AdminRegistration) && Distinct(Login)
    ensures Distinct(ChangePassword) && Distinct(ProfileUpdate)
  {
  }

  lemma EmailChainPasses(b: Body, isEmail: string -> bool)
    ensures Passes(EmailChain, b, isEmail) <==> isEmail(InputText(Field(b, "email")))
  {
  }

  lemma NameChainPasses(c: FieldChain, b: Body, isEmail: string -> bool)
    requires c == FirstNameChain || c == LastNameChain
    ensures Passes(c, b, isEmail) <==> NameFits(Field(b, c.field))
    ensures Passes(c.(optional := true), b, isEmail) <==> Field(b, c.field).Undefined? || NameFits(Field(b, c.field))
  {
    var v := Field(b, c.field);
    assert CheckedText(c, v) == Trim(InputText(v));
    assert Passes(c, b, isEmail) <==> Holds(LengthBetween(2, 50), Trim(InputText(v)), isEmail);
    assert Passes(c.(optional := true), b, isEmail) <==> v.Undefined? || Holds(LengthBetween(2, 50), Trim(InputText(v)), isEmail);
  }


  lemma PhoneChainPasses(b: Body, isEmail: string -> bool)
    ensures Passes(PhoneChain, b, isEmail) <==> PhoneFits(Field(b, "phone"))
  {
  }
  lemma CustomerPasswordChainPasses(b: Body, isEmail: string -> bool)
    ensures Passes(CustomerPasswordChain, b, isEmail) <==> 6 <= TextLength(InputText(Field(b, "password")))
  {
  }

  lemma AdminCodeChainPasses(b: Body, isEmail: string -> bool)
    ensures Passes(AdminCodeChain, b, isEmail) <==> InputText(Field(b, "adminCode")) != ""
  {
  }

  lemma AdminPasswordChainPasses(b: Body, isEmail: string -> bool)
    ensures Passes(AdminPasswordChain, b, isEmail) <==> 8 <= TextLength(InputText(Field(b, "password")))
  {
  }

  lemma AddressChainPasses(b: Body, isEmail: string -> bool)
    ensures Passes(AddressChain, b, isEmail) <==>
      Field(b, "address").Undefined? || TextLength(Trim(InputText(Field(b, "address")))) <= 500
  {
    var v := Field(b, "address");
    assert CheckedText(AddressChain, v) == Trim(InputText(v));
    assert Passes(AddressChain, b, isEmail) <==> v.Undefined? || Holds(MaxLength(500), Trim(InputText(v)), isEmail);
  }



  /** Customer registration passes exactly when the e-mail checks, the
      password has at least 6 characters, both trimmed names have 2 to 50
      and the phone, when given, has 10 to 15. */
  lemma CustomerRegistrationRules(b: Body, isEmail: string -> bool, normalize: string -> string)
    ensures Validate(CustomerRegistration, b, isEmail, normalize).Next? <==>
      && isEmail(InputText(Field(b, "email")))
      && 6 <= TextLength(InputText(Field(b, "password")))
      && NameFits(Field(b, "firstName")) && NameFits(Field(b, "lastName"))
      && PhoneFits(Field(b, "phone"))
  {
    var cs := CustomerRegistration;
    ChainsDistinct();
    var ok := Validate(cs, b, isEmail, normalize).Next?;
    assert ok <==> Failures(cs, b, isEmail) == [] by {
      ValidateAccepts(cs, b, isEmail, normalize);
    }
    assert Failures(cs, b, isEmail) == [] <==>
      (Passes(EmailChain, b, isEmail) && Passes(CustomerPasswordChain, b, isEmail) && Passes(FirstNameChain, b, isEmail)
       && Passes(LastNameChain, b, isEmail) && Passes(PhoneChain, b, isEmail)) by {
      FailuresEmptyFive(cs[0], cs[1], cs[2], cs[3], cs[4], b, isEmail);
    }
    assert Passes(EmailChain, b, isEmail) <==> isEmail(InputText(Field(b, "email"))) by {
      EmailChainPasses(b, isEmail);
    }
    assert Passes(CustomerPasswordChain, b, isEmail) <==> 6 <= TextLength(InputText(Field(b, "password"))) by {
      CustomerPasswordChainPasses(b, isEmail);
    }
    assert Passes(FirstNameChain, b, isEmail) <==> NameFits(Field(b, "firstName")) by {
      NameChainPasses(FirstNameChain, b, isEmail);
    }
    assert Passes(LastNameChain, b, isEmail) <==> NameFits(Field(b, "lastName")) by {
      NameChainPasses(LastNameChain, b, isEmail);
    }
    assert Passes(PhoneChain, b, isEmail) <==> PhoneFits(Field(b, "phone")) by {
      PhoneChainPasses(b, isEmail);
    }
  }


  /** After customer registration passes, the controller reads the trimmed
      names, and the phone as sent. */
  lemma CustomerRegistrationSanitizes(b: Body, isEmail: string -> bool, normalize: string -> string)
    requires Validate(CustomerRegistration, b, isEmail, normalize).Next?
    ensures var body := Validate(CustomerRegistration, b, isEmail, normalize).body;
      && Field(body, "firstName") == Str(Trim(InputText(Field(b, "firstName"))))
      && Field(body, "lastName") == Str(Trim(InputText(Field(b, "lastName"))))
      && Field(body, "phone") == Field(b, "phone")
  {
    var cs := CustomerRegistration;
    ChainsDistinct();
    assert Field(b, "firstName").Str? && Field(b, "lastName").Str? by {
      CustomerRegistrationRules(b, isEmail, normalize);
      NameFitsPresent(Field(b, "firstName"));
      NameFitsPresent(Field(b, "lastName"));
    }
    ValidateTrims(cs, b, isEmail, normalize, 2, "firstName");
    ValidateTrims(cs, b, isEmail, normalize, 3, "lastName");
    ValidateKeeps(cs, b, isEmail, normalize, 4, "phone");
  }



  /** Admin registration passes exactly when the e-mail checks, the
      password has at least 8 characters, both trimmed names have 2 to 50
      and an admin code is given as a non-empty value. */
  lemma AdminRegistrationRules(b: Body, isEmail: string -> bool, normalize: string -> string)
    ensures Validate(AdminRegistration, b, isEmail, normalize).Next? <==>
      && isEmail(InputText(Field(b, "email")))
      && 8 <= TextLength(InputText(Field(b, "password")))
      && NameFits(Field(b, "firstName")) && NameFits(Field(b, "lastName"))
      && InputText(Field(b, "adminCode")) != ""
  {
    var cs := AdminRegistration;
    ChainsDistinct();
    var ok := Validate(cs, b, isEmail, normalize).Next?;
    assert ok <==> Failures(cs, b, isEmail) == [] by {
      ValidateAccepts(cs, b, isEmail, normalize);
    }
    assert Failures(cs, b, isEmail) == [] <==>
      (Passes(EmailChain, b, isEmail) && Passes(AdminPasswordChain, b, isEmail) && Passes(FirstNameChain, b, isEmail)
       && Passes(LastNameChain, b, isEmail) && Passes(AdminCodeChain, b, isEmail)) by {
      FailuresEmptyFive(cs[0], cs[1], cs[2], cs[3], cs[4], b, isEmail);
    }
    assert Passes(EmailChain, b, isEmail) <==> isEmail(InputText(Field(b, "email"))) by {
      EmailChainPasses(b, isEmail);
    }
    assert Passes(AdminPasswordChain, b, isEmail) <==> 8 <= TextLength(InputText(Field(b, "password"))) by {
      AdminPasswordChainPasses(b, isEmail);
    }
    assert Passes(FirstNameChain, b, isEmail) <==> NameFits(Field(b, "firstName")) by {
      NameChainPasses(FirstNameChain, b, isEmail);
    }
    assert Passes(LastNameChain, b, isEmail) <==> NameFits(Field(b, "lastName")) by {
      NameChainPasses(LastNameChain, b, isEmail);
    }
    assert Passes(AdminCodeChain, b, isEmail) <==> InputText(Field(b, "adminCode")) != "" by {
      AdminCodeChainPasses(b, isEmail);
    }
  }


  /** After admin registration passes, the controller reads the trimmed
      names and the admin code as sent, which is then a string. */
  lemma AdminRegistrationSanitizes(b: Body, isEmail: string -> bool, normalize: string -> string)
    requires Validate(AdminRegistration, b, isEmail, normalize).Next?
    ensures var body := Validate(AdminRegistration, b, isEmail, normalize).body;
      && Field(body, "firstName") == Str(Trim(InputText(Field(b, "firstName"))))
      && Field(body, "lastName") == Str(Trim(InputText(Field(b, "lastName"))))
      && Field(body, "adminCode").Str? && Field(body, "adminCode") == Field(b, "adminCode")
  {
    var cs := AdminRegistration;
    ChainsDistinct();
    assert Field(b, "firstName").Str? && Field(b, "lastName").Str? && InputText(Field(b, "adminCode")) != "" by {
      AdminRegistrationRules(b, isEmail, normalize);
      NameFitsPresent(Field(b, "firstName"));
      NameFitsPresent(Field(b, "lastName"));
    }
    ValidateTrims(cs, b, isEmail, normalize, 2, "firstName");
    ValidateTrims(cs, b, isEmail, normalize, 3, "lastName");
    ValidateKeeps(cs, b, isEmail, normalize, 4, "adminCode");
  }




  /** Login passes exactly when the e-mail checks and the password is not
      empty; a password of spaces is not empty. */
  lemma LoginRules(b: Body, isEmail: string -> bool, normalize: string -> string)
    ensures Validate(Login, b, isEmail, normalize).Next? <==>
      isEmail(InputText(Field(b, "email"))) && InputText(Field(b, "password")) != ""
  {
    var cs := Login;
    ChainsDistinct();
    ValidateAccepts(cs, b, isEmail, normalize);
    FailuresEmptyTwo(cs[0], cs[1], b, isEmail);
    EmailChainPasses(b, isEmail);
  }

  /** A password change passes exactly when a current password is given and
      the new one has at least 6 characters. */
  lemma ChangePasswordRules(b: Body, isEmail: string -> bool, normalize: string -> string)
    ensures Validate(ChangePassword, b, isEmail, normalize).Next? <==>
      InputText(Field(b, "currentPassword")) != "" && 6 <= TextLength(InputText(Field(b, "newPassword")))
  {
    var cs := ChangePassword;
    ChainsDistinct();
    ValidateAccepts(cs, b, isEmail, normalize);
    FailuresEmptyTwo(cs[0], cs[1], b, isEmail);
  }

  /** A profile update checks only the fields that are present: a present
      name must have 2 to 50 characters once trimmed, a present phone 10
      to 15, and a present address at most 500 once trimmed. `null` counts
      as present and reads as "". */
  lemma ProfileUpdateRules(b: Body, isEmail: string -> bool, normalize: string -> string)
    ensures Validate(ProfileUpdate, b, isEmail, normalize).Next? <==>
      && (Field(b, "firstName").Undefined? || NameFits(Field(b, "firstName")))
      && (Field(b, "lastName").Undefined? || NameFits(Field(b, "lastName")))
      && PhoneFits(Field(b, "phone"))
      && (Field(b, "address").Undefined? || TextLength(Trim(InputText(Field(b, "address")))) <= 500)
  {
    var cs := ProfileUpdate;
    ChainsDistinct();
    var ok := Validate(cs, b, isEmail, normalize).Next?;
    assert ok <==> Failures(cs, b, isEmail) == [] by {
      ValidateAccepts(cs, b, isEmail, normalize);
    }
    assert Failures(cs, b, isEmail) == [] <==>
      (Passes(OptionalFirstNameChain, b, isEmail) && Passes(OptionalLastNameChain, b, isEmail)
       && Passes(PhoneChain, b, isEmail) && Passes(AddressChain, b, isEmail)) by {
      FailuresEmptyFour(cs[0], cs[1], cs[2], cs[3], b, isEmail);
    }
    assert Passes(OptionalFirstNameChain, b, isEmail) <==> Field(b, "firstName").Undefined? || NameFits(Field(b, "firstName")) by {
      NameChainPasses(FirstNameChain, b, isEmail);
    }
    assert Passes(OptionalLastNameChain, b, isEmail) <==> Field(b, "lastName").Undefined? || NameFits(Field(b, "lastName")) by {
      NameChainPasses(LastNameChain, b, isEmail);
    }
    assert Passes(PhoneChain, b, isEmail) <==> PhoneFits(Field(b, "phone")) by {
      PhoneChainPasses(b, isEmail);
    }
    assert Passes(AddressChain, b, isEmail) <==>
      Field(b, "address").Undefined? || TextLength(Trim(InputText(Field(b, "address")))) <= 500 by {
      AddressChainPasses(b, isEmail);
    }
  }


  /** After a profile update passes, the body holds the trimmed names and
      address (an explicit `null` address becomes ""), an absent field stays
      absent, and the phone is as sent. */
  lemma ProfileUpdateSanitizes(b: Body, isEmail: string -> bool, normalize: string -> string)
    requires Validate(ProfileUpdate, b, isEmail, normalize).Next?
    ensures var body := Validate(ProfileUpdate, b, isEmail, normalize).body;
      && (Field(b, "firstName").Undefined? ==> Field(body, "firstName").Undefined?)
      && (!Field(b, "firstName").Undefined? ==> Field(body, "firstName") == Str(Trim(InputText(Field(b, "firstName")))))
      && (Field(b, "address").Undefined? ==> Field(body, "address").Undefined?)
      && (!Field(b, "address").Undefined? ==> Field(body, "address") == Str(Trim(InputText(Field(b, "address")))))
      && Field(body, "phone") == Field(b, "phone")
  {
    var cs := ProfileUpdate;
    ChainsDistinct();
    if !Field(b, "firstName").Undefined? {
      ValidateTrims(cs, b, isEmail, normalize, 0, "firstName");
    } else {
      ValidateSanitizes(cs, b, isEmail, normalize, 0);
    }
    if !Field(b, "address").Undefined? {
      ValidateTrims(cs, b, isEmail, normalize, 3, "address");
    } else {
      ValidateSanitizes(cs, b, isEmail, normalize, 3);
    }
    ValidateKeeps(cs, b, isEmail, normalize, 2, "phone");
  }


  /** On `next`, a trimming chain whose check passed on a present field
      leaves the trimmed text in the body. */
  lemma ValidateTrims(cs: seq<FieldChain>, b: Body, isEmail: string -> bool, normalize: string -> string,
                      i: nat, field: string)
    requires Distinct(cs) && i < |cs| && cs[i].field == field && cs[i].trim && !cs[i].normalizeEmail
    requires Validate(cs, b, isEmail, normalize).Next?
    requires !Field(b, field).Undefined?
    ensures Field(Validate(cs, b, isEmail, normalize).body, field) == Str(Trim(InputText(Field(b, field))))
  {
    ValidateSanitizes(cs, b, isEmail, normalize, i);
  }

  /** On `next`, a chain without sanitizers leaves its field as sent. */
  lemma ValidateKeeps(cs: seq<FieldChain>, b: Body, isEmail: string -> bool, normalize: string -> string,
                      i: nat, field: string)
    requires Distinct(cs) && i < |cs| && cs[i].field == field && !cs[i].trim && !cs[i].normalizeEmail
    requires Validate(cs, b, isEmail, normalize).Next?
    ensures Field(Validate(cs, b, isEmail, normalize).body, field) == Field(b, field)
  {
    ValidateSanitizes(cs, b, isEmail, normalize, i);
  }

  /** A name that fits was sent as a string. */
  lemma NameFitsPresent(v: Input)
    requires NameFits(v)
    ensures v.Str?
  {
  }
}
