# Seed shop accounts, cart and checkout — a Dafny model

This project models the account core of a small seed shop. The server side has four parts:

* the Sequelize `user` model, with its validators, password hooks and public profile;
* the GraphQL resolvers for profiles, user lists, registration, login, password changes, profile updates, (de)activation and order creation;
* the GraphQL context builder, which resolves a bearer token to a user;
* the REST `authController` and the express-validator chains in front of it.

The client side has six parts:

* the persisted Zustand cart and auth stores;
* the checkout page's step gate, completion percentage and order input;
* the two admin list pages for users and orders;
* the admin route guard.

Pure code is written as datatypes, functions and lemmas (`Crypto`, `UserModel`, `Requests`, `Validation`, `AdminRoute`, and the reference specifications in `Resolvers` and `AuthController`). Code that updates state is written as classes whose methods are proved against those specifications:

* the `users` table, `UserTable.Table`;
* the resolvers and handlers, as methods over a `Table`;
* the stores, `CartStore.Cart` and `AuthStore.Store`;
* the page state of `Checkout.CheckoutPage`, `AdminUsers.UsersPage` and `AdminOrders.OrdersPage`.

How the model represents things the source leaves to libraries or the runtime:

* **bcrypt.** It is symbolic. A hash remembers its cost (12), its salt and its preimage, and `compare` accepts exactly the preimage.
* **JSON Web Tokens.** A token is written `userId.exp.mac` in canonical decimal, and `mac` is a deterministic stand-in for the HMAC. Verification accepts exactly what signing with the same secret produced, and only before expiry. Signing fails, with `jsonwebtoken`'s messages, when the secret is empty or `JWT_EXPIRES_IN` is unset, empty or not a timespan; the timespan parser `ms` is a parameter, and it reads a numeric string such as "3600" as milliseconds.
* **Ids and time stamps.** They come from a logical clock that advances on every write. A user's id is its creation stamp, so "newest first" is the reverse of insertion order.
* **Money.** Amounts are integer cents.
* **Request fields.** JavaScript's `undefined`, `null` and strings are kept apart (`Common.Input`).
* **Parameters.** The e-mail validator and normaliser, random salts and suffixes, the current time, the database being unreachable, and the answers of the GraphQL client are all parameters.

## Model

| member | source | states |
|---|---|---|
| Crypto.CompareHash | api/src/models/user.js:89-91 | a hash accepts its own password and no other, whatever the salt |
| Crypto.IssueOutcome | api/src/schema/resolvers.js:21-25 | signing succeeds exactly when the secret is set and `JWT_EXPIRES_IN` is a readable timespan, and yields a token for the user expiring that long after now; otherwise it throws jsonwebtoken's error, the missing secret checked first |
| Crypto.VerifySigned | api/src/middleware/graphqlAuth.js:16 | a signed token verifies to its user until its expiry and not after |
| Crypto.VerifyOnlySigned | api/src/middleware/graphqlAuth.js:16 | whatever verifies was produced by signing that user with that secret and an expiry still ahead |
| Common.ParseDecimalOfDecimal | api/src/schema/resolvers.js:22 | reading a printed number gives the number back (the claims survive the token encoding) |
| Common.DecimalOfParseDecimal | api/src/middleware/graphqlAuth.js:16 | a numeral that parses is the canonical printing of its value, so no second spelling of a claim verifies |
| UserModel.PublicProfileDropsOnlyPassword | api/src/models/user.js:94-98 | two rows have the same public profile exactly when they differ at most in the password |
| UserModel.CreateViolationsNone | api/src/models/user.js:13-64 | a new row passes validation exactly when the e-mail checks, the password has 6–100 characters, both names have 2–50 and a given phone has 10–15 |
| UserModel.NewRowFacts | api/src/models/user.js:42-78 | a row created from a valid draft holds a hash rather than the plaintext, accepts exactly the draft's password, is active, has the draft's role and no last login |
| UserModel.CheckName | api/src/models/user.js:28-41 | a name change passes exactly when the name is unchanged, or is a string of 2–50 characters (`null` violates `allowNull: false`) |
| UserModel.PatchedKeepsIdentity | api/src/models/user.js:79-83 | an update keeps id, e-mail, role and creation time; it keeps the hash unless a password is supplied, and then stores a hash that accepts exactly the new password |
| UserTable.IndexOf | api/src/schema/resolvers.js:110 | finds the first row with that e-mail or primary key, or reports that no row has it |
| UserTable.WellFormedIdsUnique | api/src/models/user.js:8-12 | primary keys are unique in every reachable table |
| UserTable.CreateSpecOutcome | api/src/models/user.js:13-78 | `create` succeeds exactly when the draft is valid, the database is up and the e-mail is new; it then appends one active row with the draft's attributes that accepts exactly the draft's password; on failure nothing changes |
| UserTable.CreateSpecWellFormed | api/src/models/user.js:13-16 | creation keeps e-mails unique, rows in creation order and every stored row valid |
| UserTable.AppendWellFormed | api/src/models/user.js:13-16 | appending a valid row with a new e-mail, stamped with the clock, keeps the table well formed |
| UserTable.UpdateSpecOutcome | api/src/models/user.js:79-83 | an update changes only the row it was given; it fails exactly when something changed and a changed field is invalid or the database is down; with no change or on failure nothing is written |
| UserTable.UpdateSpecWellFormed | api/src/models/user.js:79-83 | updates keep the table well formed |
| UserTable.PatchedRowValid | api/src/models/user.js:79-83 | a valid row that passes the update validators is still valid after the update and keeps its id, e-mail and creation stamp |
| UserTable.ReplaceWellFormed | api/src/models/user.js:79-83 | replacing a row by a valid one with the same identity, written at the clock, keeps the table well formed |
| UserTable.RowOfUser | api/src/schema/resolvers.js:250 | a row read from a well-formed table is the one found by its primary key |
| UserTable.Table.constructor | api/src/models/user.js:5-7 | an empty, well-formed table |
| UserTable.Table.FindByEmail | api/src/schema/resolvers.js:110 | fails exactly when the database is down; otherwise finds a row with that e-mail exactly when one exists |
| UserTable.Table.FindByPk | api/src/schema/resolvers.js:33 | fails exactly when the database is down; otherwise finds the row with that key exactly when one exists |
| UserTable.Table.Create | api/src/schema/resolvers.js:116-124 | the result and the new table are those of the creation specification, and the table stays well formed |
| UserTable.Table.Update | api/src/schema/resolvers.js:250 | the result and the new table are those of the update specification on the row read, and the table stays well formed |
| ServerConfig.EffectiveAdminCode | api/src/schema/resolvers.js:150 | the configured code when one is set and non-empty, "ADMIN123" otherwise, never empty |
| ServerConfig.GenerateTokenVerifies | api/src/schema/resolvers.js:21-25 | a token is generated exactly when the server can sign, and it verifies to its user until its lifetime is over |
| Requests.ProfilePatchWritesOnlyProfile | api/src/schema/resolvers.js:276-283 | a profile update writes exactly the five supplied profile fields (`null` and "" included) and leaves e-mail, role, activation, last login and the password alone |
| Requests.ActivePatchWritesOnlyFlag | api/src/schema/resolvers.js:349 | (de)activation changes the flag and the update stamp only, and counts as a change only when the flag differs |
| Requests.LastLoginPatchWritesOnlyLastLogin | api/src/schema/resolvers.js:210 | recording a login changes the last-login time and the stamp only, and never fails validation |
| Requests.PasswordPatchWritesOnlyPassword | api/src/schema/resolvers.js:250 | a password change stores a hash that accepts exactly the new password, and changes nothing else |
| GraphqlAuth.BearerToken | api/src/middleware/graphqlAuth.js:6-14 | a missing or empty header yields no token; a token found is non-empty and holds no space |
| GraphqlAuth.ResolveCharacterized | api/src/middleware/graphqlAuth.js:4-27 | the context holds a user exactly when the header's second field verifies, the database answers, and the token's user exists and is active; the user is then that row's public profile |
| GraphqlAuth.BearerTokenAnyScheme | api/src/middleware/graphqlAuth.js:11 | the server reads the token back whatever the scheme word is |
| GraphqlAuth.AuthHeaderRoundTrip | seedco/src/main.jsx:26-34 | the header the client builds gives the server back the stored token; without a token the caller is anonymous |
| GraphqlAuth.IssuedTokenResolves | api/src/middleware/graphqlAuth.js:4-27 | end to end, an issued token sent before it expires resolves to its active user's public profile |
| GraphqlAuth.ResolveAsWrittenAnonymous | api/src/middleware/graphqlAuth.js:2-25 | as written, with `User` unbound, every request gets the anonymous context |
| GraphqlAuth.IssuedTokenIgnoredAsWritten | api/src/middleware/graphqlAuth.js:2-25 | as written, a freshly issued token of an active user gives the anonymous context, where the intended binding resolves it to that user |
| Resolvers.RequireAdminCharacterized | api/src/schema/resolvers.js:6-18 | only an authenticated admin passes; anonymous callers get "Authentication required", everyone else "Admin access required" |
| Resolvers.Lookup | api/src/schema/resolvers.js:33-37 | succeeds exactly when the database is up and a row has the id, and then gives its position |
| Resolvers.GetUsersBounds | api/src/schema/resolvers.js:79-99 | for an admin, `getUsers` throws exactly when a given limit or offset is negative; a missing limit means at most 50 users, `null` means none, any limit caps the page at 100 and at itself, and the users are the filtered, newest-first page |
| Resolvers.Page | api/src/schema/resolvers.js:89-94 | position i of a page is the (offset + i)-th row counted from the newest, and a page is never longer than its size |
| Resolvers.FilterKeepsAscending | api/src/schema/resolvers.js:85-87 | filtering by role keeps rows in creation order |
| Resolvers.ListUsersFromTable | api/src/schema/resolvers.js:79-96 | a user list holds at most the page size, only users of the requested role, and only public profiles of stored rows |
| Resolvers.ListUsersNewestFirst | api/src/schema/resolvers.js:93 | the list is strictly newest first |
| Resolvers.ListUsersWholeTable | api/src/schema/resolvers.js:79-96 | with no filter, offset 0 and room for all, the list is every user, newest first |
| Resolvers.AdminOnlyRejects | api/src/schema/resolvers.js:54-100 | `getUser`, `getUsers`, `updateUser` and (de)activation refuse non-admins with the guard's message and change nothing |
| Resolvers.SelfServiceRequiresAuthentication | api/src/schema/resolvers.js:30-51 | `me`, `changePassword` and `updateProfile` refuse an anonymous caller and change nothing |
| Resolvers.LookupFinds | api/src/schema/resolvers.js:59-62 | every stored user is found by its id |
| Resolvers.MeAnswersCaller | api/src/schema/resolvers.js:30-50 | `me` answers a signed-in caller with the public profile of the caller's row, with "User not found" when the row is gone, and with the database's message when it is down |
| Resolvers.GetUserAnswersAdmin | api/src/schema/resolvers.js:54-76 | an admin's `getUser(id)` answers with the public profile of the row with that id, and with "User not found" when there is none |
| Resolvers.SetActiveEffect | api/src/schema/resolvers.js:339-386 | (de)activating a stored user by an admin succeeds with the matching message, sets only that user's flag, and writes only when the flag changes |
| Resolvers.SetActiveIdempotent | api/src/schema/resolvers.js:339-386 | (de)activating twice has the same effect and answer as doing it once |
| Resolvers.RegisterRefusesDuplicate | api/src/schema/resolvers.js:110-113 | registering a taken e-mail is refused with "User with this email already exists" and changes nothing |
| Resolvers.RegisterOutcome | api/src/schema/resolvers.js:105-142 | registration succeeds exactly when the database is up, the e-mail is new, the draft is valid and the server can sign; it then appends one active row with a hash of its password and returns its profile and a token that verifies to it |
| Resolvers.RegisterCustomerAddsCustomer | api/src/schema/resolvers.js:116-124 | a successful customer registration adds a customer with the given e-mail, phone and address |
| Resolvers.RegisterAdminChecksCodeFirst | api/src/schema/resolvers.js:150-152 | a wrong admin code is refused before anything else, and a successful admin registration used the effective code and added an admin |
| Resolvers.LoginRefusals | api/src/schema/resolvers.js:193-207 | an unknown e-mail or a wrong password gets "Invalid email or password", an inactive account "Account is deactivated", and none of them changes the table |
| Resolvers.LoginSuccess | api/src/schema/resolvers.js:188-228 | login succeeds exactly when the account is active, the password matches and the server can sign; it records the login time and returns the profile and a token that verifies to the user |
| Resolvers.ChangePasswordOutcome | api/src/schema/resolvers.js:231-262 | a wrong current password is refused and changes nothing; otherwise the change succeeds exactly when the new password has 6–100 characters, and then only the caller's hash changes, to one that accepts exactly the new password |
| Resolvers.SaveProfileOutcome | api/src/schema/resolvers.js:265-336 | a profile save succeeds exactly when nothing changes or the changed fields are valid; it writes exactly the supplied fields of that one row and returns its public profile |
| Resolvers.OrderItems | api/src/schema/resolvers.js:401-411 | every order line becomes an item numbered from 1, with a placeholder product of that id, and the line's quantity and price |
| Resolvers.CreateOrder | api/src/schema/resolvers.js:389-440 | an order always succeeds as "pending" with the input total and lines; it has a user exactly when a user id was sent, with the customer's e-mail |
| Resolvers.RegisterCustomer | api/src/schema/resolvers.js:105-142 | the response and the new table are those of the customer registration specification, and the table stays well formed |
| Resolvers.RegisterAdmin | api/src/schema/resolvers.js:145-185 | the same, for the admin registration specification |
| Resolvers.Login | api/src/schema/resolvers.js:188-228 | the same, for the login specification |
| Resolvers.ChangePassword | api/src/schema/resolvers.js:231-262 | the same, for the password change specification |
| Resolvers.UpdateProfile | api/src/schema/resolvers.js:265-298 | the same, for the self-service profile update specification |
| Resolvers.UpdateUser | api/src/schema/resolvers.js:301-336 | the same, for the admin profile update specification |
| Resolvers.SetActive | api/src/schema/resolvers.js:339-386 | the same, for the (de)activation specification |
| Resolvers.DeactivateUser | api/src/schema/resolvers.js:339-361 | deactivation is (de)activation with the flag false |
| Resolvers.ActivateUser | api/src/schema/resolvers.js:364-386 | activation is (de)activation with the flag true |
| AuthController.AdminCodeAlwaysRejected | api/src/controllers/authController.js:61 | the admin-code test as written rejects every code |
| AuthController.RegisterAdminAsWrittenAlwaysForbidden | api/src/controllers/authController.js:56-103 | the admin registration handler as written answers 403 to every request and changes nothing |
| AuthController.AdminCodeRejectedExactlyWrong | api/src/controllers/authController.js:61-66 | the intended test accepts exactly the effective code, "ADMIN123" when none is configured |
| AuthController.RegisterAdminHandledAdmits | api/src/controllers/authController.js:56-103 | with the intended test and a server that can sign, a valid admin registration with the right code and a new e-mail answers 201 and appends one admin |
| AuthController.FindCaller | api/src/controllers/authController.js:164-170 | 500 exactly when `req.user` is missing or the database is down, 404 "User not found" exactly when no row has the caller's id, and otherwise the first row with that id |
| AuthController.RegisterCustomerHandledOutcome | api/src/controllers/authController.js:12-53 | the handler changes the table exactly as the GraphQL registration does; it answers 201 with the same body exactly on success, 400 for a taken e-mail, and 500 with "Internal server error" for the rest |
| AuthController.LoginHandledOutcome | api/src/controllers/authController.js:106-156 | the handler changes the table exactly as the GraphQL login does; it answers 200 with the same body exactly on success, 401 with the same refusal exactly when the mutation refuses without writing and not with a signing error, and 500 otherwise |
| AuthController.LoginHandledRefusals | api/src/controllers/authController.js:111-133 | an unknown e-mail and a wrong password get 401 "Invalid email or password", an inactive account 401 "Account is deactivated" whatever the password, and none of them writes |
| AuthController.ChangePasswordHandledOutcome | api/src/controllers/authController.js:159-195 | answers 200, 400, 404 or 500 and changes nothing unless 200; 404 exactly when the caller's row is missing; 400 for a wrong current password; on 200 only the caller's hash changes, to one that accepts exactly the new password |
| AuthController.GetProfileOutcome | api/src/controllers/authController.js:198-223 | a missing caller or database gives 500, an unknown caller 404, and a stored caller 200 with their public profile |
| AuthController.UpdateProfileHandledOutcome | api/src/controllers/authController.js:226-263 | a missing caller or database gives 500 and an unknown caller 404, both writing nothing; for a stored caller the handler writes exactly what the GraphQL profile update writes, and answers 200 with the same body on success and 500 otherwise |
| AuthController.HandlersAsWrittenAnswer500 | api/src/controllers/authController.js:2 | as written, with `User` undefined, customer registration, login, profile reads, password changes and profile updates all answer 500 and write nothing, and admin registration answers 403 |
| AuthController.RegisterCustomerAsWrittenFails | api/src/controllers/authController.js:2-53 | a registration the bound model answers with 201 and a new row gets 500 and no row as written |
| AuthController.RegisterCustomer | api/src/controllers/authController.js:12-53 | the reply and the new table are those of the handler's specification, and the table stays well formed |
| AuthController.RegisterAdmin | api/src/controllers/authController.js:56-103 | the same, for the admin registration handler with the intended code test |
| AuthController.Login | api/src/controllers/authController.js:106-156 | the same, for the login handler |
| AuthController.ChangePassword | api/src/controllers/authController.js:159-195 | the same, for the password change handler |
| AuthController.UpdateProfile | api/src/controllers/authController.js:226-263 | the same, for the profile update handler |
| Validation.ChainBody | api/src/utils/validation.js:27-30 | a chain's sanitizers rewrite its own field and no other |
| Validation.RunMatchesFailures | api/src/utils/validation.js:19-40 | running chains that name distinct fields yields one error per failing chain, in chain order, each judged on the body as sent; each chain's field ends up sanitized and every other field is kept |
| Validation.FailuresNone | api/src/utils/validation.js:3-16 | there are no errors exactly when no chain fails |
| Validation.FailuresListed | api/src/utils/validation.js:9-12 | an entry is reported exactly when it is the field and message of a failing chain |
| Validation.ValidateOutcome | api/src/utils/validation.js:3-16 | `next` is reached exactly when no chain fails; otherwise the 400 reply lists the failing chains in order |
| Validation.ValidateAccepts | api/src/utils/validation.js:3-16 | `next` is reached exactly when the reference list of failures is empty |
| Validation.ValidateSanitizes | api/src/utils/validation.js:27-30 | on `next`, each chain's field holds its sanitized value |
| Validation.ChainsDistinct | api/src/utils/validation.js:19-108 | each of the five validators checks every field once |
| Validation.EmailChainPasses | api/src/utils/validation.js:20-23 | the e-mail chain passes exactly when the e-mail check accepts the field's text |
| Validation.NameChainPasses | api/src/utils/validation.js:27-34 | a name chain passes exactly when the trimmed name has 2–50 characters; its optional form also passes when the field is absent |
| Validation.PhoneChainPasses | api/src/utils/validation.js:35-38 | the phone chain passes exactly when the phone is absent or has 10–15 characters |
| Validation.CustomerPasswordChainPasses | api/src/utils/validation.js:24-26 | a customer password passes exactly when it has at least 6 characters |
| Validation.AdminCodeChainPasses | api/src/utils/validation.js:59-61 | an admin code passes exactly when its text is not empty |
| Validation.AdminPasswordChainPasses | api/src/utils/validation.js:48-50 | an admin password passes exactly when it has at least 8 characters |
| Validation.AddressChainPasses | api/src/utils/validation.js:102-106 | an address passes exactly when it is absent or has at most 500 characters once trimmed |
| Validation.CustomerRegistrationRules | api/src/utils/validation.js:19-40 | customer registration passes exactly when the e-mail checks, the password has at least 6 characters, both trimmed names have 2–50, and a phone, if present, has 10–15 |
| Validation.CustomerRegistrationSanitizes | api/src/utils/validation.js:27-38 | after it passes, the names are trimmed and the phone is as sent |
| Validation.AdminRegistrationRules | api/src/utils/validation.js:43-63 | admin registration passes exactly when the e-mail checks, the password has at least 8 characters, both trimmed names have 2–50 and an admin code is given |
| Validation.AdminRegistrationSanitizes | api/src/utils/validation.js:51-61 | after it passes, the names are trimmed and the admin code is the string as sent |
| Validation.LoginRules | api/src/utils/validation.js:66-73 | login passes exactly when the e-mail checks and the password is non-empty (spaces count) |
| Validation.ChangePasswordRules | api/src/utils/validation.js:76-84 | a password change passes exactly when a current password is given and the new one has at least 6 characters |
| Validation.ProfileUpdateRules | api/src/utils/validation.js:87-108 | a profile update checks only the fields present: names of 2–50 trimmed, a phone of 10–15, an address of at most 500 trimmed; `null` counts as present |
| Validation.ProfileUpdateSanitizes | api/src/utils/validation.js:87-106 | after it passes, present names and address are trimmed, absent ones stay absent, and the phone is as sent |
| Validation.ValidateTrims | api/src/utils/validation.js:27-30 | on `next`, a trimming chain leaves its present field trimmed |
| Validation.ValidateKeeps | api/src/utils/validation.js:24-26 | on `next`, a chain without sanitizers leaves its field as sent |
| Validation.NameFitsPresent | api/src/utils/validation.js:27-30 | a name that passes was sent as a string |
| Common.TrimEmptyIffBlank | api/src/utils/validation.js:28 | trimming gives "" exactly when the text is all whitespace |
| Common.TrimOfTrimmed | api/src/utils/validation.js:28 | trimming twice is trimming once |
| CartStore.Find | seedco/src/stores/cartStore.js:17-19 | finds the first entry with the id, or reports that none has it |
| CartStore.FindUnique | seedco/src/stores/cartStore.js:17-19 | with unique ids, the entry found is the one with that id |
| CartStore.AddNewProduct | seedco/src/stores/cartStore.js:33-47 | a product not in the cart is appended as one entry with its data and the quantity, and ids stay unique |
| CartStore.AddExistingProduct | seedco/src/stores/cartStore.js:21-32 | adding a product already in the cart raises that entry's quantity only, and ids stay unique |
| CartStore.SetQuantityEffect | seedco/src/stores/cartStore.js:67-82 | setting a quantity changes that entry's quantity only, and leaves the list alone when the id is absent |
| CartStore.RemoveEffect | seedco/src/stores/cartStore.js:52-65 | removing drops exactly the one entry with the id, and leaves the list alone when it is absent |
| CartStore.FilterDropsOne | seedco/src/stores/cartStore.js:56 | the filter removes exactly the entry found |
| CartStore.RemoveKeepsUnique | seedco/src/stores/cartStore.js:56 | removal keeps ids unique |
| CartStore.UniqueWithout | seedco/src/stores/cartStore.js:56 | dropping an entry keeps ids unique |
| CartStore.AddToItemsSums | seedco/src/stores/cartStore.js:14-50 | adding moves the unit sum by the quantity, and the amount by the stored entry's price times the quantity |
| CartStore.RemoveFromItemsSums | seedco/src/stores/cartStore.js:52-65 | removing lowers the sums by exactly that entry's units and amount |
| CartStore.SetQuantitySums | seedco/src/stores/cartStore.js:67-82 | setting a quantity moves the sums by the difference, priced at the entry's price |
| CartStore.SetQuantityConsistent | seedco/src/stores/cartStore.js:67-82 | setting a present entry's quantity and moving both aggregates by the difference keeps a consistent cart consistent |
| CartStore.AddWithStalePriceDrifts | seedco/src/stores/cartStore.js:31 | when the product's price differs from the stored entry's, the cached total no longer equals the sum of the lines |
| CartStore.Cart.constructor | seedco/src/stores/cartStore.js:8-12 | an empty, consistent cart without a guest id |
| CartStore.Cart.AddItem | seedco/src/stores/cartStore.js:14-50 | the list is the result of adding the product; the count grows by the quantity and the total by the product's price times it; the cart stays consistent when the price agrees |
| CartStore.Cart.RemoveItem | seedco/src/stores/cartStore.js:52-65 | an absent id changes nothing; otherwise the entry is removed and both aggregates drop by its share; the cart stays consistent |
| CartStore.Cart.UpdateQuantity | seedco/src/stores/cartStore.js:67-82 | an absent id changes nothing; otherwise the entry gets the quantity and the aggregates move by the difference; the cart stays consistent |
| CartStore.Cart.ClearCart | seedco/src/stores/cartStore.js:84 | an empty, consistent cart that keeps the guest id |
| CartStore.Cart.InitializeGuestCart | seedco/src/stores/cartStore.js:87-93 | a fresh guest id is stored and returned, and nothing else changes |
| CartStore.Cart.GetItemQuantity | seedco/src/stores/cartStore.js:98-101 | the quantity of the entry with the id, and 0 when there is none |
| CartStore.Cart.IsInCart | seedco/src/stores/cartStore.js:103-105 | true exactly when some entry has the id |
| AuthStore.Merge | seedco/src/stores/authStore.js:178-182 | the merged user has the keys of both; updated keys take the new value and the other keys keep the old one |
| AuthStore.RoleGettersAgree | seedco/src/stores/authStore.js:243-248 | no user is both admin and customer; `isAdmin` and `isCustomer` agree with `getUserRole`; without a user both are false |
| AuthStore.MergeIdempotent | seedco/src/stores/authStore.js:178-182 | applying the same profile update twice is applying it once, and an empty update changes nothing |
| AuthStore.MergeKeepsFields | seedco/src/stores/authStore.js:178-182 | a profile update never loses a field |
| AuthStore.SetUserAuthenticates | seedco/src/stores/authStore.js:17 | setting a user marks the store signed in exactly when there is one, and changes nothing else |
| AuthStore.SetTokenStores | seedco/src/stores/authStore.js:19-26 | the store takes the token; the stored token is set exactly when the token is non-empty and removed otherwise |
| AuthStore.LoginThenLogout | seedco/src/stores/authStore.js:158-176 | login signs in and stops loading, storing the token; logout after login gives the initial state with nothing stored |
| AuthStore.UpdateProfileOnlyUser | seedco/src/stores/authStore.js:178-182 | a profile update replaces the user by the merge and leaves token, flags and storage alone |
| AuthStore.PartializeRoundTrip | seedco/src/stores/authStore.js:257-262 | reloading the persisted part gives the same state with loading cleared, and the loading flag never reaches storage |
| AuthStore.RegisterVariablesByRole | seedco/src/stores/authStore.js:44-67 | only role "admin" picks the admin mutation, which always sends an admin code ("ADMIN123" when the form left it empty); the customer mutation always sends a phone and an address ("" when empty) |
| AuthStore.AuthenticatedOutcome | seedco/src/stores/authStore.js:79-107 | a successful reply with data signs in exactly as `login` does; any other case throws and leaves the session as it was, with loading cleared |
| AuthStore.CheckAuthStatusOutcome | seedco/src/stores/authStore.js:187-240 | after the check the store is signed in only with the stored token and a successful `me` reply; a signed-out store holds neither user nor token |
| AuthStore.Store.constructor | seedco/src/stores/authStore.js:11-14 | the initial state over what storage holds |
| AuthStore.Store.SetUser | seedco/src/stores/authStore.js:17 | the state after `setUser` |
| AuthStore.Store.SetToken | seedco/src/stores/authStore.js:19-26 | the state after `setToken`, storage included |
| AuthStore.Store.Login | seedco/src/stores/authStore.js:158-166 | the state after `login`, storage included |
| AuthStore.Store.Logout | seedco/src/stores/authStore.js:168-176 | the state after `logout`, storage included |
| AuthStore.Store.UpdateProfile | seedco/src/stores/authStore.js:178-182 | the state after `updateProfile` |
| AuthStore.Store.SetLoading | seedco/src/stores/authStore.js:184 | the state after `setLoading` |
| AuthStore.Store.RegisterUser | seedco/src/stores/authStore.js:29-108 | sends the role's variables when the client is available; the result and new state are those of the shared reply handling |
| AuthStore.Store.AuthenticateUser | seedco/src/stores/authStore.js:110-156 | sends the e-mail and the password when the client is available; the result and new state are those of the shared reply handling |
| AuthStore.Store.Finish | seedco/src/stores/authStore.js:79-107 | handles a reply after loading was switched on |
| AuthStore.Store.CheckAuthStatus | seedco/src/stores/authStore.js:187-240 | queries `me` only with a stored token and an available client; the new state is that of the check's specification |
| AuthStore.Store.GetUserRole | seedco/src/stores/authStore.js:243 | a role returned is truthy and belongs to a user |
| AuthStore.Store.Partialize | seedco/src/stores/authStore.js:257-262 | the persisted part of the current state |
| Checkout.AnyBlank | seedco/src/pages/Checkout.jsx:170-192 | true exactly when some listed field is missing or blank |
| Checkout.CompletedCount | seedco/src/pages/Checkout.jsx:268-301 | all fields count as completed exactly when none is blank, and none does exactly when all are blank |
| Checkout.IsCurrentStepValid | seedco/src/pages/Checkout.jsx:236-265 | the shipping step is valid exactly when its eight fields are filled, the payment step exactly when its four are, and any other step always |
| Checkout.RoundedPercent | seedco/src/pages/Checkout.jsx:268-301 | the rounded percentage lies in 0–100, is 100 exactly when all fields are filled and 0 exactly when none is |
| Checkout.PercentBounds | seedco/src/pages/Checkout.jsx:268-301 | the same bounds, for the rounding of a share of eight or four |
| Checkout.StepCompletionPercentage | seedco/src/pages/Checkout.jsx:268-301 | the step's completion percentage lies in 0–100 |
| Checkout.PercentageMatchesGate | seedco/src/pages/Checkout.jsx:236-301 | the percentage is 100 exactly when the step is valid, and 0 exactly when none of its fields is filled |
| Checkout.OrderInputShape | seedco/src/pages/Checkout.jsx:314-339 | the order carries the cart lines and total, charges the total, keeps the card's last four digits, has no user id for a guest, and copies the contact e-mail |
| Checkout.ServerEchoesCart | seedco/src/pages/Checkout.jsx:314-339 | the order the server creates holds the cart's lines, numbered from 1, and its total; a guest's order has no user |
| Checkout.CheckoutPage.constructor | seedco/src/pages/Checkout.jsx:37-54 | the page starts at step 0 with the initial forms (country "US") and no alert |
| Checkout.CheckoutPage.HandleNext | seedco/src/pages/Checkout.jsx:168-215 | advances one step exactly when the current step is valid; otherwise it stays and shows the step's error alert |
| Checkout.CheckoutPage.HandleBack | seedco/src/pages/Checkout.jsx:217-219 | goes back one step and changes nothing else |
| Checkout.CheckoutPage.HandleShippingChange | seedco/src/pages/Checkout.jsx:221-226 | sets exactly one shipping field |
| Checkout.CheckoutPage.HandlePaymentChange | seedco/src/pages/Checkout.jsx:228-233 | sets exactly one payment field |
| Checkout.ChangeTouchesOneField | seedco/src/pages/Checkout.jsx:221-233 | a field change sets that field and keeps every other |
| Checkout.InitialFormsIncomplete | seedco/src/pages/Checkout.jsx:38-54 | the initial forms pass neither gate, and the shipping form starts at 0% |
| Checkout.ShippingStartsBlank | seedco/src/pages/Checkout.jsx:37-47 | every required shipping field starts out blank |
| Checkout.PaymentStartsBlank | seedco/src/pages/Checkout.jsx:48-53 | the card number starts out blank |
| AdminUsers.ToggledColors | seedco/src/pages/Admin/Users.jsx:90-92 | a status toggle moves the chip of the toggled rows between "success" and "error" and leaves other chips alone |
| AdminUsers.RoleChangeColors | seedco/src/pages/Admin/Users.jsx:86-88 | after a role change the changed rows are shown in "error" exactly when the new role is "admin", and other rows keep their colour |
| AdminUsers.ToggledEffect | seedco/src/pages/Admin/Users.jsx:110-121 | a toggle flips the status of the rows with that id and keeps everything else in place |
| AdminUsers.ToggleTwice | seedco/src/pages/Admin/Users.jsx:110-121 | toggling twice restores active and inactive rows; a row with any other status ends up "inactive" |
| AdminUsers.ToggleTwiceIdentity | seedco/src/pages/Admin/Users.jsx:110-121 | when every row is active or inactive, toggling twice changes nothing |
| AdminUsers.WithRoleEffect | seedco/src/pages/Admin/Users.jsx:123-129 | a role change sets the role of the rows with that id only |
| AdminUsers.WithoutEffect | seedco/src/pages/Admin/Users.jsx:131-139 | deleting removes exactly the rows with that id, keeps every other row as often as it occurred, and changes nothing when the id is absent |
| AdminUsers.FilteredUsersEffect | seedco/src/pages/Admin/Users.jsx:141-145 | the shown rows are exactly the matching rows, each as often as in the list; with both filters "all" they are the whole list |
| AdminUsers.UsersPage.constructor | seedco/src/pages/Admin/Users.jsx:41-81 | the page starts with the given rows and both filters "all" |
| AdminUsers.UsersPage.HandleStatusToggle | seedco/src/pages/Admin/Users.jsx:110-121 | the list becomes the toggled list, and the filters are kept |
| AdminUsers.UsersPage.HandleRoleChange | seedco/src/pages/Admin/Users.jsx:123-129 | the list becomes the list with the new role, and the filters are kept |
| AdminUsers.UsersPage.HandleDeleteUser | seedco/src/pages/Admin/Users.jsx:131-139 | the user is removed only when the deletion is confirmed |
| AdminUsers.UsersPage.SetFilters | seedco/src/pages/Admin/Users.jsx:80-81 | sets both filters and keeps the list |
| AdminOrders.StatusOptionsAreStatuses | seedco/src/pages/Admin/Orders.jsx:265-271 | the status selector offers the filter list without "all", in order |
| AdminOrders.StatusOptionsColored | seedco/src/pages/Admin/Orders.jsx:81-105 | every status offered has its own colour, none of them the fallback |
| AdminOrders.WithStatusEffect | seedco/src/pages/Admin/Orders.jsx:117-123 | a status change sets the status of the orders with that id only |
| AdminOrders.WithStatusIdempotent | seedco/src/pages/Admin/Orders.jsx:117-123 | setting the same status twice is setting it once |
| AdminOrders.FilteredOrdersEffect | seedco/src/pages/Admin/Orders.jsx:125-128 | "all" shows every order, and any other filter shows exactly the orders with that status, each as often as in the list |
| AdminOrders.OrdersPage.constructor | seedco/src/pages/Admin/Orders.jsx:38-79 | the page starts with the given orders and the filter "all" |
| AdminOrders.OrdersPage.HandleStatusChange | seedco/src/pages/Admin/Orders.jsx:117-123 | the list becomes the list with the new status, and the filter is kept |
| AdminOrders.OrdersPage.SetStatusFilter | seedco/src/pages/Admin/Orders.jsx:79 | sets the filter and keeps the list |
| AdminRoute.Decide | seedco/src/components/Auth/AdminRoute.jsx:10-60 | loading wins; a visitor is redirected to "/login", replacing the entry and carrying the location; a signed-in user sees the page exactly when the admin value is truthy, and the denial otherwise |
| AdminRoute.AdminRouteAsWrittenNeverDenies | seedco/src/components/Auth/AdminRoute.jsx:7 | as written, the denial never shows, and every idle signed-in user, customers included, sees the admin page |
| AdminRoute.AdminRouteGuardAdmitsAdmins | seedco/src/components/Auth/AdminRoute.jsx:35-58 | the intended guard shows the page exactly to signed-in admins and the denial exactly to other signed-in users |
| AdminRoute.GuardsDifferOnNonAdmins | seedco/src/components/Auth/AdminRoute.jsx:35-58 | the two guards differ exactly on idle, signed-in non-admins |

## Left out

- api/src/middleware/auth.js (the REST route's JWT middleware) is not part of this model. The handlers take `req.user.id` as the optional `caller`.
- The e-mail syntax check (`isEmail`) and `normalizeEmail` are library code. They are function parameters, and nothing is assumed about them.
- The REST controller imports `{ User }`, and the context builder imports `{ user }` but calls `User`. The models module exports the model as `user`, so as written those lookups throw (see "## Findings"). Both halves are modelled: the as-written members take the throw as the lookup failing with `UserTable.UnboundModelError`, and the remaining members use the intended binding, the one the resolvers' `{ user: User }` has.
- After validation, express-validator writes the sanitized body back. The model proves what that body holds (trimmed names and address). The handlers then take their typed inputs as given; the step from body to inputs is not modelled.
- The database is an in-memory table whose full outage is a parameter. There is no partial failure, no concurrency and no transaction.
- UUID primary keys are modelled as clock stamps. Dates and `Date.now()` are natural numbers, and random salts and guest-id suffixes are parameters.
- Money is integer cents; floating point rounding of prices and totals is not modelled.
- Resolvers.RegisterOutcome, Resolvers.LoginSuccess: these state the table's state after a failure only when the server can sign. When signing throws, the row (or the login time) is already written, and the lemma says nothing more in that case.
- ServerConfig.Env: `JWT_EXPIRES_IN` is taken as a string or unset, as `process.env` gives it. The timespan parser `ms` is a parameter, and its only modelled outcome is a non-negative number of milliseconds or none; a negative timespan, which would issue already expired tokens, is not modelled.
- Crypto.CompareHash: bcrypt compares only the first 72 bytes of a password, so two passwords of 100 characters that agree in those bytes both verify. The symbolic hash keeps the whole preimage and does not model this truncation.
- Resolvers.GetUsersBounds: the database dialect is not part of this model. A negative limit or offset is modelled as a refused query with the message `refusal`; a dialect that reads a negative limit as "no limit" is not modelled.
- AuthController.LoginHandledOutcome, AuthController.RegisterCustomerHandledOutcome: these characterise a 500 only as "Internal server error". Which exception caused it is not kept.
- Message texts of Sequelize errors are approximations (`UserTable.ErrorMessage`). Only the resolvers' own message constants are exact.
- Seeding, the Express and Apollo server setup, and the GraphQL schema's type declarations are configuration. They are not modelled.
- Order creation on the server is a stub with placeholder products. It is modelled as written; nothing is stored.
- Checkout: `handleSubmitOrder` is modelled up to the order input it builds. The mutation call, the EmailJS confirmation e-mail, `clearCart`, alert timers and navigation are effects on other systems.
- Checkout: the effect that fills the shipping form from the signed-in user (Checkout.jsx:75-91) is not modelled. Neither is the effect that calls `initializeGuestCart` for a guest (Checkout.jsx:69-72), which is `CartStore.Cart.InitializeGuestCart` itself.
- Checkout.CheckoutPage.HandleNext, Checkout.CheckoutPage.HandleBack: as in the source, there is no upper bound on the step and no lower bound on going back. The page only disables the Back button at step 0 (Checkout.jsx:826), and that rendering is not modelled.
- CartStore: `getGuestId` is the `guestId` field. Rehydration from "cart-storage" is not modelled, and `persist` stores every field.
- AuthStore: rehydration from "auth-storage" at start-up is the `Rehydrate` function; the storage medium itself is the `storedToken` field. The GraphQL client's availability and its replies are parameters.
- AdminUsers, AdminOrders: the view and edit dialogs and the summary counters are display only. The browser's confirmation dialog is the `confirmed` parameter.
- Product pages and the remaining client stores are outside the modelled core.

Behaviour the model keeps as written, which a reader may not expect:

- The client's customer registration sends phone "" when the form left it empty. The resolver stores it as the string "", and the user model's `len` validator rejects it, so such a registration fails with a validation error.
- `updateProfile` on a store without a user creates a user object from the update alone, while the store stays signed out.
- `login` with a null token stores the text "null".
- `checkAuthStatus` without a stored token leaves `isLoading` as it was.
- `addItem` on a product already in the cart adds the product's current price times the quantity to the total, not the stored entry's price. When the two differ, the cached total drifts from the lines (`CartStore.AddWithStalePriceDrifts`).

## Findings

| source | as written | input that shows it | evidently intended | confidence | as-written member | corrected member |
|---|---|---|---|---|---|---|
| api/src/controllers/authController.js:61 | `adminCode !== process.env.ADMIN_REGISTRATION_CODE \|\| "ADMIN123"` parses as `(adminCode !== code) \|\| "ADMIN123"`, which is always truthy | any admin registration, even with adminCode equal to the configured code, answers 403 "Invalid admin registration code" | compare to `(process.env.ADMIN_REGISTRATION_CODE \|\| "ADMIN123")`, as the GraphQL resolver does at resolvers.js:150 | not executed | AuthController.RegisterAdminAsWrittenAlwaysForbidden | AuthController.RegisterAdminHandledAdmits |
| seedco/src/components/Auth/AdminRoute.jsx:7 | `isAdmin` is taken out of the store as the getter function and tested without being called; a function is always truthy | a signed-in customer opening an admin page sees the page instead of the access-denied message | call the getter, `isAdmin()` (authStore.js:244-247) | not executed | AdminRoute.AdminRouteAsWrittenNeverDenies | AdminRoute.AdminRouteGuardAdmitsAdmins |
| api/src/middleware/graphqlAuth.js:2 | the module binds `{ user }`, but line 17 calls `User.findByPk`; `User` is not defined, so the call throws a ReferenceError that the catch turns into `{ user: null }` | a request with `Authorization: Bearer <token>` for a token just issued to an active user gets the anonymous context, so every authenticated resolver answers "Authentication required" | bind the model as `User`, as resolvers.js:3 does with `{ user: User }` | not executed | GraphqlAuth.IssuedTokenIgnoredAsWritten | GraphqlAuth.IssuedTokenResolves |
| api/src/controllers/authController.js:2 | `const { User } = require("../models")` takes a property the models module does not export (models/index.js:57-61 exports `user`), so `User` is undefined and every `User.findOne`, `User.create` and `User.findByPk` throws | a valid customer registration with a new e-mail answers 500 "Internal server error" and stores nothing; so do login, getProfile, changePassword and updateProfile | import `{ user: User }`, as resolvers.js:3 does | not executed | AuthController.RegisterCustomerAsWrittenFails | AuthController.RegisterCustomerHandledOutcome |
