/** The guard around the admin pages: a loading view while the store is
    busy, a redirect to the login page for a visitor, an access-denied
    message for a signed-in non-admin, and the guarded page otherwise. */
module AdminRoute {
  import AuthStore

  /** What the guard renders. */
  datatype View =
    | LoadingView
    | Redirect(to: string, from: string, replace: bool)
    | AccessDenied
    | Page

  /** A value read out of the store: the `isAdmin` getter itself, or a
      boolean. A function is always truthy in JavaScript. */
  datatype StoreValue = Getter | Flag(b: bool)

  predicate Truthy(v: StoreValue) {
    v.Getter? || v.b
  }

  /** The chain of early returns, on the three values the guard read and
      the current location. */
  function Decide(isLoading: bool, isAuthenticated: bool, isAdmin: StoreValue, location: string): (v: View)
    ensures isLoading ==> v == LoadingView
    ensures !isLoading && !isAuthenticated ==> v == Redirect("/login", location, true)
    ensures !isLoading && isAuthenticated ==> (v == Page <==> Truthy(isAdmin))
    ensures v == AccessDenied <==> !isLoading && isAuthenticated && !Truthy(isAdmin)
  {
    if isLoading then LoadingView
    else if !isAuthenticated then Redirect("/login", location, true)
    else if !Truthy(isAdmin) then AccessDenied
    else Page
  }

  /** The guard as written: `isAdmin` is taken out of the store without
      being called, so the value tested is the getter. */
  function AdminRouteAsWritten(s: AuthStore.Snapshot, location: string): View {
    Decide(s.isLoading, s.isAuthenticated, Getter, location)
  }

  /** As written, the access-denied view is never shown: every signed-in
      user who is not loading gets the page, a customer included. */
  lemma AdminRouteAsWrittenNeverDenies(s: AuthStore.Snapshot, location: string)
    ensures AdminRouteAsWritten(s, location) != AccessDenied
    ensures AdminRouteAsWritten(s, location) == Page <==> !s.isLoading && s.isAuthenticated
    ensures !s.isLoading && s.isAuthenticated && AuthStore.IsCustomerUser(s.user) ==>
      AdminRouteAsWritten(s, location) == Page
  {
  }

  /** The guard as intended: the getter is called on the store's user. */
  function AdminRouteGuard(s: AuthStore.Snapshot, location: string): View {
    Decide(s.isLoading, s.isAuthenticated, Flag(AuthStore.IsAdminUser(s.user)), location)
  }

  /** The intended guard shows the page exactly to a signed-in admin and the
      access-denied view exactly to every other signed-in user; loading
      always wins, and a visitor is sent to "/login" with the location. */
  lemma AdminRouteGuardAdmitsAdmins(s: AuthStore.Snapshot, location: string)
    ensures AdminRouteGuard(s, location) == Page <==>
      !s.isLoading && s.isAuthenticated && AuthStore.IsAdminUser(s.user)
    ensures AdminRouteGuard(s, location) == AccessDenied <==>
      !s.isLoading && s.isAuthenticated && !AuthStore.IsAdminUser(s.user)
    ensures s.isLoading ==> AdminRouteGuard(s, location) == LoadingView
    ensures !s.isLoading && !s.isAuthenticated ==> AdminRouteGuard(s, location) == Redirect("/login", location, true)
  {
  }

  /** The two guards differ exactly on a signed-in, idle non-admin. */
  lemma GuardsDifferOnNonAdmins(s: AuthStore.Snapshot, location: string)
    ensures AdminRouteGuard(s, location) != AdminRouteAsWritten(s, location) <==>
      !s.isLoading && s.isAuthenticated && !AuthStore.IsAdminUser(s.user)
  {
  }
}
