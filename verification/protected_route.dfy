/** The route guard: what a protected page renders, given the session and the role the
    page requires. */
module ProtectedRoute {
  import opened Base
  import opened AuthStore

  datatype Decision =
    | Spinner
    | RedirectToLogin(from: string)
    | RedirectToUnauthorized
    | RenderChildren

  /** The guard's decision; `location` is the path being visited. */
  function Guard(user: Option<User>, isLoading: bool, requiredRole: Option<Role>, location: string): (r: Decision)
    ensures isLoading <==> r == Spinner
    ensures !isLoading && user.None? <==> r == RedirectToLogin(location)
    ensures r == RedirectToUnauthorized <==>
      !isLoading && user.Some? && requiredRole.Some? && user.value.role != requiredRole.value
    ensures r == RenderChildren <==>
      !isLoading && user.Some? && (requiredRole.None? || user.value.role == requiredRole.value)
  {
    if isLoading then Spinner
    else match user
      case None => RedirectToLogin(location)
      case Some(u) =>
        if requiredRole.Some? && u.role != requiredRole.value then RedirectToUnauthorized
        else RenderChildren
  }

  /** The page itself is rendered only for a settled session with a user of an allowed role. */
  lemma ChildrenNeedUser(user: Option<User>, isLoading: bool, requiredRole: Option<Role>, location: string)
    requires Guard(user, isLoading, requiredRole, location) == RenderChildren
    ensures !isLoading && user.Some?
    ensures requiredRole == Some(AdminRole) ==> user.value.role == AdminRole
  {
  }

  /** Over the session store: a signed-out session on a protected page is sent to the login
      page, and a session that has just signed in reaches exactly the pages that require
      no role or the user's own role (an admin, too, is turned away from a user-only page). */
  lemma GuardAfterSessionChange(s: AuthState, u: User, token: string, requiredRole: Option<Role>, location: string)
    ensures Guard(ClearAuth(s).user, ClearAuth(s).isLoading, requiredRole, location) == RedirectToLogin(location)
    ensures var t := SetUser(s, Some(u), token);
      Guard(t.user, t.isLoading, requiredRole, location) == RenderChildren <==>
        requiredRole.None? || requiredRole.value == u.role
  {
  }
}
