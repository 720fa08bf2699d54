/** The request gates of the server: `protect` (Bearer header, token check,
    user lookup) and the `admin`, `user` and `requireEmailVerification`
    role gates. Token verification is an oracle: a function from the token
    text to the user id it was signed for, or `None` when verification
    throws. */
module Auth {
  import opened Wrappers
  import opened Http
  import Text

  type UserId = nat

  /** A user document as the gates and the profile routes see it. The
      password is kept as the secret itself: hashing is not modelled. */
  datatype User = User(
    id: UserId,
    name: string,
    email: string,
    phone: string,
    address: string,
    role: string,
    password: string,
    isEmailVerified: bool)

  type Users = map<UserId, User>

  const ADMIN_ROLE: string := "admin"
  const USER_ROLE: string := "user"

  const NO_TOKEN: string := "Not authorized, no token"
  const TOKEN_FAILED: string := "Not authorized, token failed"
  const USER_NOT_FOUND: string := "User not found"

  /** `header.split(" ")[1]`: the second space-separated field, absent when
      the header has no space. */
  function BearerToken(header: string): (r: Option<string>)
    ensures r.Some? <==> ' ' in header
    ensures r.Some? ==> ' ' !in r.value
  {
    var fields := Text.Split(header, ' ');
    if |fields| >= 2 then Some(fields[1]) else None
  }

  /** The header a client builds, `"Bearer " + token`, gives the token back
      whenever the token has no space in it. */
  lemma {:induction false} BearerTokenRoundTrip(token: string)
    requires ' ' !in token
    ensures BearerToken("Bearer " + token) == Some(token)
  {
    var h := "Bearer " + token;
    assert h[6] == ' ';
    assert ' ' !in h[..6];
    assert Text.IndexOf(h, ' ') == 6 by {
      IndexOfFirst(h, ' ', 6);
    }
    assert h[7..] == token;
    assert Text.Split(token, ' ') == [token];
  }

  lemma {:induction false} IndexOfFirst(s: string, c: char, i: nat)
    requires i < |s| && s[i] == c && c !in s[..i]
    ensures Text.IndexOf(s, c) == i
    decreases i
  {
    if i > 0 {
      assert s[1..][..i - 1] == s[..i][1..];
      IndexOfFirst(s[1..], c, i - 1);
    }
  }

  /** `protect`: a header that is absent or does not start with "Bearer" is
      401 "no token"; a missing or empty token (`jwt.verify` throws "jwt
      must be provided" for either) or one the oracle rejects is 401
      "token failed"; a token for a user no longer stored is 401 "User not
      found"; otherwise the request proceeds as that user. */
  function Protect(header: Option<string>, verify: string -> Option<UserId>, users: Users): (r: Response<User>)
    ensures r.IsSuccess() <==>
              && header.Some? && Text.StartsWith(header.value, "Bearer")
              && BearerToken(header.value).Some? && BearerToken(header.value).value != ""
              && verify(BearerToken(header.value).value).Some?
              && verify(BearerToken(header.value).value).value in users
    ensures r.IsSuccess() ==> r.body == users[verify(BearerToken(header.value).value).value]
    ensures !r.IsSuccess() ==> r.Status() == UNAUTHORIZED
    ensures r == Reject(UNAUTHORIZED, NO_TOKEN) <==> header.None? || !Text.StartsWith(header.value, "Bearer")
    ensures header.Some? && Text.StartsWith(header.value, "Bearer") && BearerToken(header.value) in {None, Some("")} ==>
              r == Reject(UNAUTHORIZED, TOKEN_FAILED)
  {
    if header.None? || !Text.StartsWith(header.value, "Bearer") then Reject(UNAUTHORIZED, NO_TOKEN)
    else match BearerToken(header.value)
      case None => Reject(UNAUTHORIZED, TOKEN_FAILED)
      case Some(token) =>
        if token == "" then Reject(UNAUTHORIZED, TOKEN_FAILED)
        else match verify(token)
        case None => Reject(UNAUTHORIZED, TOKEN_FAILED)
        case Some(id) =>
          if id in users then Reply(OK, users[id]) else Reject(UNAUTHORIZED, USER_NOT_FOUND)
  }

  /** A request that carries the header a client builds for a token of a
      stored user passes as that user. */
  lemma {:induction false} ProtectAcceptsIssuedToken(token: string, verify: string -> Option<UserId>, users: Users)
    requires token != "" && ' ' !in token
    requires verify(token).Some? && verify(token).value in users
    ensures Protect(Some("Bearer " + token), verify, users) == Reply(OK, users[verify(token).value])
  {
    BearerTokenRoundTrip(token);
    assert Text.StartsWith("Bearer " + token, "Bearer");
  }

  /** The header "Bearer " carries the empty token, which fails whatever
      the oracle says about it. */
  lemma {:induction false} EmptyTokenFails(verify: string -> Option<UserId>, users: Users)
    ensures Protect(Some("Bearer "), verify, users) == Reject(UNAUTHORIZED, TOKEN_FAILED)
  {
    assert Text.StartsWith("Bearer ", "Bearer");
    assert Text.IndexOf("Bearer ", ' ') == 6 by {
      IndexOfFirst("Bearer ", ' ', 6);
    }
    assert Text.Split("", ' ') == [""];
  }

  /** A gate after `protect`: `None` stands for a request with no user. */
  function AdminGate(user: Option<User>): (r: Response<User>)
    ensures r.IsSuccess() <==> user.Some? && user.value.role == ADMIN_ROLE
    ensures r.IsSuccess() ==> r.body == user.value
    ensures !r.IsSuccess() ==> r.Status() == FORBIDDEN
  {
    if user.Some? && user.value.role == ADMIN_ROLE then Reply(OK, user.value)
    else Reject(FORBIDDEN, "Not authorized as admin")
  }

  function UserGate(user: Option<User>): (r: Response<User>)
    ensures r.IsSuccess() <==> user.Some? && user.value.role == USER_ROLE
    ensures r.IsSuccess() ==> r.body == user.value
    ensures !r.IsSuccess() ==> r.Status() == FORBIDDEN
  {
    if user.Some? && user.value.role == USER_ROLE then Reply(OK, user.value)
    else Reject(FORBIDDEN, "Not authorized as user")
  }

  function RequireEmailVerification(user: Option<User>): (r: Response<User>)
    ensures r.IsSuccess() <==> user.Some? && user.value.isEmailVerified
    ensures r.IsSuccess() ==> r.body == user.value
    ensures !r.IsSuccess() ==> r.Status() == FORBIDDEN
  {
    if user.Some? && user.value.isEmailVerified then Reply(OK, user.value)
    else Reject(FORBIDDEN, "Email verification required")
  }

  /** No request passes both role gates: an admin is turned away by the
      `user` gate and a user by the `admin` gate. */
  lemma {:induction false} RoleGatesDisjoint(user: Option<User>)
    ensures !(AdminGate(user).IsSuccess() && UserGate(user).IsSuccess())
  {
  }

  /** The caller as the next gate sees it. */
  function Caller(r: Response<User>): Option<User>
  {
    if r.IsSuccess() then Some(r.body) else None
  }

  /** `protect, admin`: the first failing gate answers. */
  function AdminOnly(header: Option<string>, verify: string -> Option<UserId>, users: Users): (r: Response<User>)
    ensures r.IsSuccess() <==> Protect(header, verify, users).IsSuccess() && Protect(header, verify, users).body.role == ADMIN_ROLE
    ensures !Protect(header, verify, users).IsSuccess() ==> r == Protect(header, verify, users)
    ensures Protect(header, verify, users).IsSuccess() && !r.IsSuccess() ==> r.Status() == FORBIDDEN
  {
    var p := Protect(header, verify, users);
    if p.IsSuccess() then AdminGate(Caller(p)) else p
  }
}
