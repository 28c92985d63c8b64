/** The arguments the account operations receive, shared by the GraphQL
    resolvers (the `...Input` types of the schema) and the REST controller
    (`req.body` after the validator chain), and how they become model
    drafts and update patches. */
module Requests {
  import opened Common
  import opened UserModel

  datatype CustomerInput = CustomerInput(
    email: string, password: string, firstName: string, lastName: string, phone: Input, address: Input)

  datatype AdminInput = AdminInput(
    email: string, password: string, firstName: string, lastName: string, adminCode: Input)

  datatype LoginInput = LoginInput(email: string, password: string)

  datatype PasswordInput = PasswordInput(currentPassword: string, newPassword: string)

  datatype ProfileInput = ProfileInput(
    firstName: Input, lastName: Input, phone: Input, address: Input, profileImage: Input)

  /** `OrderInput` and its parts; money is in integer cents. */
  datatype OrderItemInput = OrderItemInput(productId: string, quantity: int, price: int)

  datatype CustomerInfo = CustomerInfo(
    firstName: string, lastName: string, email: string,
    phone: Option<string>, address: Option<string>, city: Option<string>,
    state: Option<string>, zipCode: Option<string>, country: Option<string>)

  datatype PaymentInfo = PaymentInfo(cardLast4: Option<string>, cardType: Option<string>, amount: int)

  datatype OrderInput = OrderInput(
    items: seq<OrderItemInput>, total: int, customerInfo: CustomerInfo, paymentInfo: PaymentInfo,
    guestId: Option<string>, userId: Option<string>)

  /** A nullable attribute passed to `User.create`: `undefined` and `null`
      both store `NULL`. */
  function Nullable(v: Input): (r: Option<string>)
    ensures r.Some? <==> v.Str?
    ensures r.Some? ==> r.value == v.s
  {
    if v.Str? then Some(v.s) else None
  }

  function CustomerDraft(i: CustomerInput): Draft {
    Draft(i.email, i.password, i.firstName, i.lastName, Nullable(i.phone), Nullable(i.address), Customer)
  }

  /** The admin path passes no phone or address. */
  function AdminDraft(i: AdminInput): Draft {
    Draft(i.email, i.password, i.firstName, i.lastName, None, None, Admin)
  }

  /** `updateData`: each of the five profile fields that is not `undefined`
      is copied, `null` and `""` included. */
  function ProfilePatch(i: ProfileInput): Patch {
    NoChange.(firstName := i.firstName, lastName := i.lastName, phone := i.phone,
              address := i.address, profileImage := i.profileImage)
  }

  /** `{ lastLogin: now }`. */
  function LastLoginPatch(now: nat): Patch {
    NoChange.(lastLogin := Some(now))
  }

  /** `{ password: newPassword }`. */
  function PasswordPatch(newPassword: string): Patch {
    NoChange.(password := Some(newPassword))
  }

  /** `{ isActive: active }`. */
  function ActivePatch(active: bool): Patch {
    NoChange.(isActive := Some(active))
  }

  /** A profile update writes exactly the supplied profile fields (an empty
      string is written as such) and leaves the e-mail, the role, the
      activation flag, the last login and the stored password alone. */
  lemma ProfilePatchWritesOnlyProfile(u: User, i: ProfileInput, salt: nat, stamp: nat)
    ensures var v := Patched(u, ProfilePatch(i), salt, stamp);
      && v.firstName == (if i.firstName.Str? then i.firstName.s else u.firstName)
      && v.lastName == (if i.lastName.Str? then i.lastName.s else u.lastName)
      && v.phone == (if i.phone.Undefined? then u.phone else Nullable(i.phone))
      && v.address == (if i.address.Undefined? then u.address else Nullable(i.address))
      && v.profileImage == (if i.profileImage.Undefined? then u.profileImage else Nullable(i.profileImage))
      && v.id == u.id && v.email == u.email && v.role == u.role && v.isActive == u.isActive
      && v.lastLogin == u.lastLogin && v.password == u.password && v.createdAt == u.createdAt
  {
  }

  /** Setting the activation flag changes that flag and the update stamp only. */
  lemma ActivePatchWritesOnlyFlag(u: User, active: bool, salt: nat, stamp: nat)
    ensures Patched(u, ActivePatch(active), salt, stamp) == u.(isActive := active, updatedAt := stamp)
    ensures Changed(u, ActivePatch(active)) <==> u.isActive != active
  {
  }

  /** Recording a login changes the last-login time and the update stamp only. */
  lemma LastLoginPatchWritesOnlyLastLogin(u: User, now: nat, salt: nat, stamp: nat)
    ensures Patched(u, LastLoginPatch(now), salt, stamp) == u.(lastLogin := Some(now), updatedAt := stamp)
    ensures UpdateViolations(u, LastLoginPatch(now)) == []
  {
  }

  /** A password change stores the hash of the new password and nothing else. */
  lemma PasswordPatchWritesOnlyPassword(u: User, newPassword: string, salt: nat, stamp: nat, candidate: string)
    ensures var v := Patched(u, PasswordPatch(newPassword), salt, stamp);
      && v == u.(password := v.password, updatedAt := stamp)
      && (ComparePassword(v, candidate) <==> candidate == newPassword)
    ensures Changed(u, PasswordPatch(newPassword))
  {
  }
}
