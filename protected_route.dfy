/** frontend1/src/components/ProtectedRoute.js, and the guarded routes of
    frontend1/src/App.js that use it. */
module ProtectedRoute {
  import opened Base
  import opened Schema

  /** What the component returns: its children, or a redirect. */
  datatype Outcome = RenderChildren | NavigateTo(path: string)

  const LoginPath: string := "/login"

  /** `ProtectedRoute({ role, children })` for the session's `auth.token` and `auth.role`. */
  function Decide(token: Option<string>, sessionRole: Option<string>, required: Option<string>): (o: Outcome)
    ensures o == RenderChildren || o == NavigateTo(LoginPath)
  {
    if !Truthy(token) then NavigateTo(LoginPath)
    else if Truthy(required) && sessionRole != required then NavigateTo(LoginPath)
    else RenderChildren
  }

  /** The children show exactly when a token is present and the route asks for no role or
      for the session's role; every other case goes to the login page. */
  lemma DecideSpec(token: Option<string>, sessionRole: Option<string>, required: Option<string>)
    ensures Decide(token, sessionRole, required) == RenderChildren
            <==> Truthy(token) && (!Truthy(required) || sessionRole == required)
    ensures Decide(token, sessionRole, required) != RenderChildren ==>
            Decide(token, sessionRole, required) == NavigateTo(LoginPath)
    ensures !Truthy(token) ==> Decide(token, sessionRole, required) == NavigateTo(LoginPath)
  {
  }

  /** The role each guarded route of the application asks for. */
  function RouteRole(path: string): Option<Role>
  {
    if path == "/user/dashboard" then Some(USER)
    else if path == "/owner/dashboard" then Some(OWNER)
    else if path == "/admin/dashboard" || path == "/admin/users" || path == "/admin/stores" then Some(ADMIN)
    else None
  }

  /** The dashboard the login page opens for each role. */
  function DashboardOf(role: Role): string
  {
    match role
    case ADMIN => "/admin/dashboard"
    case USER => "/user/dashboard"
    case OWNER => "/owner/dashboard"
  }

  /** With a token, a guarded route shows its page exactly to sessions holding the route's
      role. */
  lemma GuardedRoutesSpec(path: string, token: Option<string>, sessionRole: Option<string>)
    requires RouteRole(path).Some? && Truthy(token)
    ensures var required := Some(RoleName(RouteRole(path).value));
      Decide(token, sessionRole, required) == RenderChildren <==> sessionRole == required
  {
  }

  /** Each role's dashboard is guarded by that role: after login a session opens its own
      dashboard and no other role's. */
  lemma DashboardGuardedByItsRole(role: Role, other: Role, token: string)
    requires token != ""
    ensures RouteRole(DashboardOf(role)) == Some(role)
    ensures Decide(Some(token), Some(RoleName(role)), Some(RoleName(RouteRole(DashboardOf(role)).value))) == RenderChildren
    ensures other != role ==>
      Decide(Some(token), Some(RoleName(other)), Some(RoleName(RouteRole(DashboardOf(role)).value))) == NavigateTo(LoginPath)
  {
    assert RoleName(other) != RoleName(role) <== other != role by {
      if other != role {
        assert RoleName(other)[0] != RoleName(role)[0];
      }
    }
  }
}
