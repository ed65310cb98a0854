/** The route guard of the client (`components/ProtectedRoute.tsx`): a
    spinner while the sign-in state loads, the sign-in page for a visitor,
    the home page for a user without the route's role, the page otherwise.

    `encodeURIComponent` is a parameter: its escaping rules are not part of
    this model. */
module ProtectedRoute {
  import opened Wrappers
  import opened AuthContext

  /** What the guard renders. */
  datatype Decision = Spinner | Redirect(to: string) | Children

  const SignInPath := "/auth?next="
  const HomePath := "/"

  /** Whether the user holds the named role. */
  predicate HasRole(user: Option<ClientUser>, role: string) {
    user.Some? && user.value.role == Some(role)
  }

  /** The guard as written: loading first, then sign-in, then the admin
      role, then the dietitian role. */
  function Guard(isLoading: bool, user: Option<ClientUser>, path: string, encode: string -> string,
                 isAdminRoute: bool, isDietitianRoute: bool): (d: Decision)
    ensures isLoading <==> d == Spinner
    ensures !isLoading && !IsAuthenticated(user) ==> d == Redirect(SignInPath + encode(path))
    ensures d == Children <==> (!isLoading && IsAuthenticated(user)
      && (isAdminRoute ==> HasRole(user, "admin")) && (isDietitianRoute ==> HasRole(user, "dietitian")))
    ensures d.Redirect? && IsAuthenticated(user) ==> d.to == HomePath
  {
    if isLoading then Spinner
    else if !IsAuthenticated(user) then Redirect(SignInPath + encode(path))
    else if isAdminRoute && !HasRole(user, "admin") then Redirect(HomePath)
    else if isDietitianRoute && !HasRole(user, "dietitian") then Redirect(HomePath)
    else Children
  }

  /** A route marked for both roles is never shown: a user holds one role. */
  lemma BothRolesNeverShown(isLoading: bool, user: Option<ClientUser>, path: string, encode: string -> string)
    ensures Guard(isLoading, user, path, encode, true, true) != Children
  {
  }

  /** A route marked for neither role is shown to every signed-in user once
      loading is over. */
  lemma OpenRouteShown(user: ClientUser, path: string, encode: string -> string)
    ensures Guard(false, Some(user), path, encode, false, false) == Children
  {
  }

  /** The admin check as written reads `role`, which the sign-in state never
      fills in, while the admin set-up grants `isAdmin`: a user who signed in
      and then entered the right admin key is still sent home by an admin
      route. */
  lemma SetUpAdminSentHome(u: ServerUser, adminKey: string, path: string, encode: string -> string)
    requires SetupAdminAccount(Some(UserFromResponse(u)), adminKey).0
    ensures var admin := SetupAdminAccount(Some(UserFromResponse(u)), adminKey).1;
      admin.value.isAdmin && Guard(false, admin, path, encode, true, false) == Redirect(HomePath)
  {
  }

  /** Whether the user may see admin pages: the `admin` role, or the
      `isAdmin` flag the admin set-up grants (the flag the admin layout
      reads). */
  predicate IsAdminUser(user: Option<ClientUser>) {
    HasRole(user, "admin") || (user.Some? && user.value.isAdmin)
  }

  /** The guard with the admin check accepting either mark of an admin. */
  function GuardCorrected(isLoading: bool, user: Option<ClientUser>, path: string, encode: string -> string,
                          isAdminRoute: bool, isDietitianRoute: bool): (d: Decision)
    ensures isLoading <==> d == Spinner
    ensures !isLoading && !IsAuthenticated(user) ==> d == Redirect(SignInPath + encode(path))
    ensures d == Children <==> (!isLoading && IsAuthenticated(user)
      && (isAdminRoute ==> IsAdminUser(user)) && (isDietitianRoute ==> HasRole(user, "dietitian")))
    ensures d.Redirect? && IsAuthenticated(user) ==> d.to == HomePath
  {
    if isLoading then Spinner
    else if !IsAuthenticated(user) then Redirect(SignInPath + encode(path))
    else if isAdminRoute && !IsAdminUser(user) then Redirect(HomePath)
    else if isDietitianRoute && !HasRole(user, "dietitian") then Redirect(HomePath)
    else Children
  }

  /** With the corrected check, the admin set-up opens the admin routes. */
  lemma SetUpAdminAdmitted(u: ServerUser, adminKey: string, path: string, encode: string -> string)
    requires SetupAdminAccount(Some(UserFromResponse(u)), adminKey).0
    ensures var admin := SetupAdminAccount(Some(UserFromResponse(u)), adminKey).1;
      GuardCorrected(false, admin, path, encode, true, false) == Children
  {
  }

  /** The corrected guard differs from the one as written only on admin
      routes, and there only admits more users. */
  lemma CorrectedOnlyWidens(isLoading: bool, user: Option<ClientUser>, path: string, encode: string -> string,
                            isAdminRoute: bool, isDietitianRoute: bool)
    ensures !isAdminRoute ==> (GuardCorrected(isLoading, user, path, encode, isAdminRoute, isDietitianRoute)
      == Guard(isLoading, user, path, encode, isAdminRoute, isDietitianRoute))
    ensures (Guard(isLoading, user, path, encode, isAdminRoute, isDietitianRoute) == Children)
      ==> (GuardCorrected(isLoading, user, path, encode, isAdminRoute, isDietitianRoute) == Children)
  {
  }
}
