/** The client's authentication state: the reducer every screen reads
    from, and the register, login and start-up flows that drive it,
    including their offline "demo" fallback. */
module AuthState {
  import opened Wrappers

  /** The user record the client keeps, whether the server or the demo
      fallback supplied it. */
  datatype ClientUser = ClientUser(id: string, name: string, email: string, phone: string, role: string, emailVerified: bool)

  datatype State = State(
    user: Option<ClientUser>,
    token: Option<string>,
    isAuthenticated: bool,
    loading: bool,
    error: Option<string>)

  /** The state on start-up: no user, the token left in storage (if any),
      not authenticated, loading. */
  function Initial(storedToken: Option<string>): State
  {
    State(None, storedToken, false, true, None)
  }

  datatype Action =
    | AuthStart
    | AuthSuccess(user: ClientUser, token: string)
    | AuthFail(message: Option<string>)
    | Logout
    | UpdateUser(user: ClientUser)
    | ClearError
    | Unrecognised(kind: string)

  /** `authReducer`. */
  function Reduce(s: State, a: Action): (r: State)
    ensures a.AuthStart? ==>
              && r.loading && r.error == None
              && r.user == s.user && r.token == s.token && r.isAuthenticated == s.isAuthenticated
    ensures a.AuthSuccess? ==>
              r == State(Some(a.user), Some(a.token), true, false, None)
    ensures a.AuthFail? || a.Logout? ==>
              && r.user == None && r.token == None && !r.isAuthenticated && !r.loading
              && r.error == (if a.AuthFail? then a.message else None)
    ensures a.UpdateUser? ==> r.user == Some(a.user) && r.(user := s.user) == s
    ensures a.ClearError? ==> r.error == None && r.(error := s.error) == s
    ensures a.Unrecognised? ==> r == s
  {
    match a
    case AuthStart => s.(loading := true, error := None)
    case AuthSuccess(user, token) =>
      s.(user := Some(user), token := Some(token), isAuthenticated := true, loading := false, error := None)
    case AuthFail(message) =>
      s.(user := None, token := None, isAuthenticated := false, loading := false, error := message)
    case Logout =>
      s.(user := None, token := None, isAuthenticated := false, loading := false, error := None)
    case UpdateUser(user) => s.(user := Some(user))
    case ClearError => s.(error := None)
    case Unrecognised(_) => s
  }

  /** Authenticated always comes with a user and a token. */
  predicate Consistent(s: State)
  {
    s.isAuthenticated ==> s.user.Some? && s.token.Some?
  }

  /** The start-up state is consistent and every action keeps it so. */
  lemma {:induction false} ReduceKeepsConsistent(s: State, a: Action, storedToken: Option<string>)
    requires Consistent(s)
    ensures Consistent(Initial(storedToken))
    ensures Consistent(Reduce(s, a))
  {
  }

  /** Logging out is a failure that records no error, whatever error a
      failure would have recorded. */
  lemma {:induction false} LogoutIsSilentFail(s: State, message: Option<string>)
    ensures Reduce(s, Logout) == Reduce(s, AuthFail(message)).(error := None)
    ensures Reduce(s, Logout) == Reduce(s, AuthFail(None))
  {
  }

  /** Only a success authenticates: after any other action the flag is
      what it was, or false. */
  lemma {:induction false} OnlySuccessAuthenticates(s: State, a: Action)
    requires !a.AuthSuccess?
    ensures Reduce(s, a).isAuthenticated ==> s.isAuthenticated
  {
  }

  // ----- Talking to the server -----

  /** How a request failed: sent with no response, answered with an error
      status (and perhaps a `message`), or never sent. */
  datatype Failure =
    | NoResponse
    | Answered(status: int, message: Option<string>)
    | NotSent

  datatype Attempt<T> = Succeeded(value: T) | Failed(failure: Failure)

  datatype Session = Session(user: ClientUser, token: string)

  /** The fallback is tried on a network error or a server error (status
      500 and up), and on nothing else. */
  predicate DemoFallback(f: Failure)
  {
    f.NoResponse? || (f.Answered? && f.status >= 500)
  }

  /** The server's message when it sent a non-empty one, else the default. */
  function MessageOr(f: Failure, default: string): (m: string)
    ensures |default| > 0 ==> |m| > 0
    ensures !f.Answered? ==> m == default
  {
    if f.Answered? && f.message.Some? && |f.message.value| > 0 then f.message.value else default
  }

  const MOCK_TOKEN: string := "mock-token"

  datatype DemoAccount = DemoAccount(email: string, password: string, user: ClientUser)

  const DEMO_ACCOUNTS: seq<DemoAccount> := [
    DemoAccount("customer@demo.com", "password123",
      ClientUser("demo-user", "Demo Customer", "customer@demo.com", "", "user", true)),
    DemoAccount("admin@demo.com", "admin123",
      ClientUser("demo-admin", "Demo Admin", "admin@demo.com", "", "admin", true))
  ]

  /** The first account in `accounts` with exactly this email and password. */
  function FindAccount(accounts: seq<DemoAccount>, email: string, password: string): (r: Option<DemoAccount>)
    ensures r.Some? ==> r.value in accounts && r.value.email == email && r.value.password == password
    ensures r.None? <==> forall acc | acc in accounts :: acc.email != email || acc.password != password
  {
    if |accounts| == 0 then None
    else if accounts[0].email == email && accounts[0].password == password then Some(accounts[0])
    else FindAccount(accounts[1..], email, password)
  }

  datatype Outcome = Outcome(state: State, success: bool, demo: bool)

  /** `login`: start, then the server's session; on a failure the demo
      account with exactly these credentials when the fallback applies,
      otherwise a failure carrying the server's message or "Login failed". */
  function Login(s: State, email: string, password: string, attempt: Attempt<Session>): (r: Outcome)
    ensures !r.state.loading && Consistent(r.state)
    ensures r.success <==> r.state.isAuthenticated
    ensures r.demo <==>
              && attempt.Failed? && DemoFallback(attempt.failure)
              && FindAccount(DEMO_ACCOUNTS, email, password).Some?
    ensures r.demo ==> r.success && r.state.token == Some(MOCK_TOKEN)
    ensures attempt.Succeeded? ==> r.success && r.state.user == Some(attempt.value.user)
    ensures !r.success ==> r.state.error == Some(MessageOr(attempt.failure, "Login failed"))
  {
    var started := Reduce(s, AuthStart);
    match attempt
    case Succeeded(session) =>
      Outcome(Reduce(started, AuthSuccess(session.user, session.token)), true, false)
    case Failed(f) =>
      var account := FindAccount(DEMO_ACCOUNTS, email, password);
      if DemoFallback(f) && account.Some? then
        Outcome(Reduce(started, AuthSuccess(account.value.user, MOCK_TOKEN)), true, true)
      else
        Outcome(Reduce(started, AuthFail(Some(MessageOr(f, "Login failed")))), false, false)
  }

  /** A rejection the server made itself (a status below 500) is never
      turned into a demo login, even with demo credentials. */
  lemma {:induction false} ClientErrorNeverDemo(s: State, email: string, password: string, status: int, message: Option<string>)
    requires status < 500
    ensures !Login(s, email, password, Failed(Answered(status, message))).success
  {
  }

  /** With the server unreachable, the demo administrator's credentials
      sign in as an administrator and a wrong password does not. */
  lemma {:induction false} DemoAdminLogin(s: State, wrong: string)
    requires wrong != "admin123"
    ensures var r := Login(s, "admin@demo.com", "admin123", Failed(NoResponse));
            r.demo && r.state.user.Some? && r.state.user.value.role == "admin"
    ensures var r := Login(s, "admin@demo.com", wrong, Failed(NoResponse));
            !r.success && r.state.error == Some("Login failed")
  {
    assert DEMO_ACCOUNTS[0].email != "admin@demo.com";
    assert DEMO_ACCOUNTS[1].email == "admin@demo.com";
  }

  /** The form data `register` sends; an absent field is the empty string. */
  datatype Registration = Registration(name: string, email: string, phone: string, password: string)

  /** The user the demo registration makes up: a fixed id, the name or
      "Customer", the email, the phone or "", role user, unverified. */
  function MockUser(data: Registration): (u: ClientUser)
    ensures u.role == "user" && !u.emailVerified && u.email == data.email
    ensures |u.name| > 0
  {
    ClientUser("mock-user-id", if |data.name| > 0 then data.name else "Customer", data.email, data.phone, "user", false)
  }

  /** `register`: start, then the server's session; on a failure the made-up
      user whenever the fallback applies (no credentials are checked),
      otherwise a failure with the server's message or "Registration failed". */
  function Register(s: State, data: Registration, attempt: Attempt<Session>): (r: Outcome)
    ensures !r.state.loading && Consistent(r.state)
    ensures r.success <==> attempt.Succeeded? || DemoFallback(attempt.failure)
    ensures r.demo <==> attempt.Failed? && DemoFallback(attempt.failure)
    ensures r.demo ==> r.state.user == Some(MockUser(data)) && r.state.token == Some(MOCK_TOKEN)
    ensures !r.success ==> !r.state.isAuthenticated && r.state.error == Some(MessageOr(attempt.failure, "Registration failed"))
  {
    var started := Reduce(s, AuthStart);
    match attempt
    case Succeeded(session) =>
      Outcome(Reduce(started, AuthSuccess(session.user, session.token)), true, false)
    case Failed(f) =>
      if DemoFallback(f) then
        Outcome(Reduce(started, AuthSuccess(MockUser(data), MOCK_TOKEN)), true, true)
      else
        Outcome(Reduce(started, AuthFail(Some(MessageOr(f, "Registration failed")))), false, false)
  }

  /** A demo registration never yields an administrator. */
  lemma {:induction false} DemoRegistrationIsCustomer(s: State, data: Registration, f: Failure)
    requires DemoFallback(f)
    ensures var r := Register(s, data, Failed(f));
            r.success && r.state.user.Some? && r.state.user.value.role != "admin"
  {
  }

  /** One pass of the start-up effect: with no stored token the state fails
      quietly; with one, the user from `/api/auth/me`, else the user a demo
      sign-in saved, else a failure "Token is invalid". The token itself is
      kept on success. The failure clears the token, and the effect depends
      on the token, so that failure is not where the state settles (see
      Settle). */
  function LoadUser(s: State, me: Attempt<ClientUser>, savedMockUser: Option<ClientUser>): (r: State)
    ensures !r.loading && Consistent(r)
    ensures s.token.None? ==> r == Reduce(s, AuthFail(None))
    ensures r.isAuthenticated <==> s.token.Some? && (me.Succeeded? || savedMockUser.Some?)
    ensures r.isAuthenticated ==> r.token == s.token
    ensures s.token.Some? && !r.isAuthenticated ==> r.error == Some("Token is invalid")
  {
    match s.token
    case None => Reduce(s, AuthFail(None))
    case Some(token) =>
      match me
      case Succeeded(user) => Reduce(s, AuthSuccess(user, token))
      case Failed(_) =>
        if savedMockUser.Some? then Reduce(s, AuthSuccess(savedMockUser.value, token))
        else Reduce(s, AuthFail(Some("Token is invalid")))
  }

  /** The start-up effect run until its dependency, the token, stops
      changing. A pass that keeps the token is the last; a pass that clears
      it triggers one more, which finds no token and fails quietly. */
  function Settle(s: State, me: Attempt<ClientUser>, savedMockUser: Option<ClientUser>): (r: State)
    ensures !r.loading && Consistent(r)
    ensures r.isAuthenticated <==> s.token.Some? && (me.Succeeded? || savedMockUser.Some?)
    ensures r.isAuthenticated ==> r.token == s.token && r.error == None
    ensures !r.isAuthenticated ==> r.user == None && r.token == None && r.error == None
    ensures r.token.None? ==> LoadUser(r, me, savedMockUser) == r
  {
    var first := LoadUser(s, me, savedMockUser);
    if first.token == s.token then first else LoadUser(first, me, savedMockUser)
  }

  /** A rejected stored token shows "Token is invalid" only for the moment
      between the two passes; the settled state carries no error. */
  lemma {:induction false} InvalidTokenMessageIsTransient(s: State, f: Failure)
    requires s.token.Some?
    ensures LoadUser(s, Failed(f), None).error == Some("Token is invalid")
    ensures LoadUser(s, Failed(f), None).token == None
    ensures Settle(s, Failed(f), None) == LoadUser(LoadUser(s, Failed(f), None), Failed(f), None)
    ensures Settle(s, Failed(f), None).error == None
  {
  }
}
