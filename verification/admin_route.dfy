/** The client's guard around the administrator pages: what it renders for
    each authentication state. */
module AdminRoute {
  import opened Wrappers
  import AuthState

  datatype Decision =
    | Spinner      // the "Loading..." card
    | ToLogin      // a redirect to /login
    | ToDashboard  // a redirect to /dashboard
    | Children     // the guarded page itself

  /** Loading wins over everything; then authentication; then the role,
      where a missing user counts as "not an administrator". */
  function Decide(s: AuthState.State): (d: Decision)
    ensures d == Spinner <==> s.loading
    ensures d == ToLogin <==> !s.loading && !s.isAuthenticated
    ensures d == ToDashboard <==>
              !s.loading && s.isAuthenticated && !(s.user.Some? && s.user.value.role == "admin")
    ensures d == Children <==>
              !s.loading && s.isAuthenticated && s.user.Some? && s.user.value.role == "admin"
  {
    if s.loading then Spinner
    else if !s.isAuthenticated then ToLogin
    else if s.user.None? || s.user.value.role != "admin" then ToDashboard
    else Children
  }

  /** On start-up the guard waits, whatever token storage held. */
  lemma {:induction false} StartupWaits(storedToken: Option<string>)
    ensures Decide(AuthState.Initial(storedToken)) == Spinner
  {
  }

  /** After a logout or a failed sign-in the guard sends the visitor to the
      sign-in page, from any state. */
  lemma {:induction false} SignedOutGoesToLogin(s: AuthState.State, message: Option<string>)
    ensures Decide(AuthState.Reduce(s, AuthState.Logout)) == ToLogin
    ensures Decide(AuthState.Reduce(s, AuthState.AuthFail(message))) == ToLogin
  {
  }

  /** A successful sign-in opens the guarded pages exactly to an
      administrator; any other role is sent to its dashboard. */
  lemma {:induction false} SignInDecides(s: AuthState.State, user: AuthState.ClientUser, token: string)
    ensures Decide(AuthState.Reduce(s, AuthState.AuthSuccess(user, token))) ==
              if user.role == "admin" then Children else ToDashboard
  {
  }

  /** The demo administrator, signed in while the server is unreachable,
      is let through. */
  lemma {:induction false} DemoAdminPasses(s: AuthState.State)
    ensures Decide(AuthState.Login(s, "admin@demo.com", "admin123", AuthState.Failed(AuthState.NoResponse)).state) == Children
  {
    AuthState.DemoAdminLogin(s, "");
  }

  /** Starting a request hides the guarded page behind the spinner until the
      request settles. */
  lemma {:induction false} RequestShowsSpinner(s: AuthState.State)
    ensures Decide(AuthState.Reduce(s, AuthState.AuthStart)) == Spinner
  {
  }
}
