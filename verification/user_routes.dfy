/** The customer routes of the server: the caller's own orders (listing,
    detail, cancel, history) and the profile and password updates. */
module UserRoutes {
  import opened Wrappers
  import opened Http
  import Seqs
  import Text
  import Paging
  import opened Orders
  import Auth
  import OrderRoutes

  // ----- The caller's orders -----

  /** `GET /api/user/orders`: the caller's orders, the status filter, then
      one page. */
  function UserOrders(docs: seq<OrderRoutes.Doc>, caller: Auth.User, status: string, page: nat, limit: nat)
    : (r: OrderRoutes.Listing)
    requires page >= 1 && limit >= 1
    ensures forall d | d in r.orders ::
              d in docs && d.order.user == caller.id && (|status| > 0 ==> StatusName(d.order.status) == status)
    ensures r.total == |OrderRoutes.StatusFilter(OrderRoutes.MyOrders(docs, caller), status)|
    ensures r == OrderRoutes.ListOrders(OrderRoutes.MyOrders(docs, caller), status, page, limit)
  {
    OrderRoutes.ListPage(OrderRoutes.StatusFilter(OrderRoutes.MyOrders(docs, caller), status), page, limit)
  }

  /** Walking every page of the caller's listing visits each of the caller's
      matching orders exactly once, in store order, and no one else's. */
  lemma {:induction false} UserOrdersPagesCover(docs: seq<OrderRoutes.Doc>, caller: Auth.User, status: string, limit: nat)
    requires limit >= 1
    ensures var all := Paging.Pages(OrderRoutes.StatusFilter(OrderRoutes.MyOrders(docs, caller), status), limit,
                                    UserOrders(docs, caller, status, 1, limit).totalPages);
            && all == OrderRoutes.StatusFilter(OrderRoutes.MyOrders(docs, caller), status)
            && forall d | d in all :: d in docs && d.order.user == caller.id
  {
    OrderRoutes.ListingPagesCover(OrderRoutes.MyOrders(docs, caller), status, limit);
  }

  /** `GET /api/user/orders/:id`: 404 for an unknown id, 403 for anyone but
      the owner; admins are not exempt here. */
  function ViewOwnOrder(store: OrderRoutes.OrderStore, caller: Auth.User, id: OrderRoutes.OrderId): (r: Response<Order>)
    ensures id !in store ==> r == Reject(NOT_FOUND, OrderRoutes.ORDER_NOT_FOUND)
    ensures r.IsSuccess() <==> id in store && store[id].user == caller.id
    ensures r.IsSuccess() ==> r == Reply(OK, store[id])
    ensures id in store && !r.IsSuccess() ==> r.Status() == FORBIDDEN
  {
    if id !in store then Reject(NOT_FOUND, OrderRoutes.ORDER_NOT_FOUND)
    else if store[id].user != caller.id then Reject(FORBIDDEN, "Not authorized to view this order")
    else Reply(OK, store[id])
  }

  /** `DELETE /api/user/orders/:id`: 404, then 403 for anyone but the owner,
      then 400 unless pending; otherwise the order becomes cancelled. */
  function CancelOwnOrder(store: OrderRoutes.OrderStore, caller: Auth.User, id: OrderRoutes.OrderId)
    : (r: OrderRoutes.Update<string>)
    ensures id !in store ==> r == OrderRoutes.Update(Reject(NOT_FOUND, OrderRoutes.ORDER_NOT_FOUND), store)
    ensures id in store && store[id].user != caller.id ==> r.response.Status() == FORBIDDEN && r.store == store
    ensures r.response.IsSuccess() <==> id in store && store[id].user == caller.id && store[id].status == Pending
    ensures r.response.IsSuccess() ==> r.store == store[id := store[id].(status := Cancelled)]
    ensures !r.response.IsSuccess() ==> r.store == store
  {
    if id !in store then OrderRoutes.Update(Reject(NOT_FOUND, OrderRoutes.ORDER_NOT_FOUND), store)
    else if store[id].user != caller.id then
      OrderRoutes.Update(Reject(FORBIDDEN, "Not authorized to cancel this order"), store)
    else OrderRoutes.CancelAllowed(store, id)
  }

  /** The two cancel routes differ only for an admin cancelling someone
      else's pending order: the order route allows it, this one does not. */
  lemma {:induction false} CancelRoutesDiffer(store: OrderRoutes.OrderStore, caller: Auth.User, id: OrderRoutes.OrderId)
    ensures CancelOwnOrder(store, caller, id) != OrderRoutes.CancelOrder(store, caller, id) <==>
              id in store && store[id].user != caller.id && OrderRoutes.IsAdmin(caller)
  {
    if id in store && store[id].user != caller.id && OrderRoutes.IsAdmin(caller) {
      if store[id].status == Pending {
        assert OrderRoutes.CancelOrder(store, caller, id).response.IsSuccess();
      } else {
        assert OrderRoutes.CancelOrder(store, caller, id).response.Status() == BAD_REQUEST;
      }
    }
  }

  datatype History = History(recentOrders: seq<OrderRoutes.Doc>, totalOrders: nat, totalSpent: real)

  const RECENT: nat := 10

  /** `GET /api/user/order-history`: the ten newest of the caller's orders,
      how many orders the caller has, and the total of the caller's paid
      orders (0 when none is paid). */
  function OrderHistory(docs: seq<OrderRoutes.Doc>, caller: Auth.User): (r: History)
    ensures r.totalOrders == |OrderRoutes.MyOrders(docs, caller)|
    ensures |r.recentOrders| == if r.totalOrders < RECENT then r.totalOrders else RECENT
    ensures r.recentOrders == OrderRoutes.MyOrders(docs, caller)[..|r.recentOrders|]
    ensures forall d | d in r.recentOrders :: d in docs && d.order.user == caller.id
    ensures r.totalSpent == OrderRoutes.PaidSum(OrderRoutes.MyOrders(docs, caller))
  {
    var mine := OrderRoutes.MyOrders(docs, caller);
    OrderRoutes.RevenueIsPaidSum(mine);
    History(mine[..if |mine| < RECENT then |mine| else RECENT], |mine|, OrderRoutes.Revenue(mine))
  }

  /** With the documents newest first, the recent orders are the caller's
      newest: none of the caller's other orders is newer than any of them. */
  lemma {:induction false} HistoryIsNewest(docs: seq<OrderRoutes.Doc>, caller: Auth.User)
    requires OrderRoutes.NewestFirst(docs)
    ensures var mine := OrderRoutes.MyOrders(docs, caller);
            var recent := OrderHistory(docs, caller).recentOrders;
            forall i, j | 0 <= i < |recent| <= j < |mine| :: recent[i].createdAt >= mine[j].createdAt
  {
    var mine := OrderRoutes.MyOrders(docs, caller);
    var recent := OrderHistory(docs, caller).recentOrders;
    OrderRoutes.FilterKeepsNewestFirst(docs, OrderRoutes.OwnedBy(caller.id));
    forall i, j | 0 <= i < |recent| <= j < |mine|
      ensures recent[i].createdAt >= mine[j].createdAt
    {
      assert recent[i] == mine[i];
    }
  }

  /** Other users' orders never change what a caller has spent. */
  lemma {:induction false} SpentIgnoresOthers(docs: seq<OrderRoutes.Doc>, other: OrderRoutes.Doc, caller: Auth.User)
    requires other.order.user != caller.id
    ensures OrderHistory(docs + [other], caller).totalSpent == OrderHistory(docs, caller).totalSpent
    ensures OrderHistory(docs + [other], caller).totalOrders == OrderHistory(docs, caller).totalOrders
  {
    Seqs.FilterAppend(docs, [other], OrderRoutes.OwnedBy(caller.id));
    assert Seqs.Filter([other], OrderRoutes.OwnedBy(caller.id)) == [];
    assert OrderRoutes.MyOrders(docs + [other], caller) == OrderRoutes.MyOrders(docs, caller);
  }

  // ----- Profile -----

  /** A user as the routes send it back: every field but the password. */
  datatype PublicUser = PublicUser(
    id: Auth.UserId,
    name: string,
    email: string,
    phone: string,
    address: string,
    role: string,
    isEmailVerified: bool)

  function Public(u: Auth.User): PublicUser
  {
    PublicUser(u.id, u.name, u.email, u.phone, u.address, u.role, u.isEmailVerified)
  }

  /** The body of `PUT /api/user/profile`; `None` is an absent field. */
  datatype ProfileBody = ProfileBody(name: Option<string>, phone: Option<string>, address: Option<string>)

  /** The validators: a present name must be at least two characters once
      trimmed, a present phone exactly ten ASCII digits. */
  predicate ProfileValid(body: ProfileBody)
  {
    && (body.name.Some? ==> |Text.Trim(body.name.value)| >= 2)
    && (body.phone.Some? ==> Text.IsTenDigits(body.phone.value))
  }

  /** The update the route writes: the trimmed name, the phone and the
      address, each only when present. */
  function ApplyProfile(u: Auth.User, body: ProfileBody): (r: Auth.User)
    ensures r.name == if body.name.Some? then Text.Trim(body.name.value) else u.name
    ensures r.phone == body.phone.GetOr(u.phone)
    ensures r.address == body.address.GetOr(u.address)
    ensures r.(name := u.name, phone := u.phone, address := u.address) == u
  {
    u.(name := if body.name.Some? then Text.Trim(body.name.value) else u.name,
       phone := body.phone.GetOr(u.phone),
       address := body.address.GetOr(u.address))
  }

  datatype ProfileResult = ProfileResult(response: Response<Option<PublicUser>>, users: Auth.Users)

  /** `PUT /api/user/profile`: 400 and no write when a validator fails;
      otherwise the caller's document gets the new fields and is sent back
      without its password (`null` when the document has gone). Email,
      role, password and verification are never written. */
  function UpdateProfile(users: Auth.Users, caller: Auth.User, body: ProfileBody): (r: ProfileResult)
    ensures !ProfileValid(body) ==> r == ProfileResult(Reject(BAD_REQUEST, "Validation failed"), users)
    ensures ProfileValid(body) && caller.id !in users ==> r == ProfileResult(Reply(OK, None), users)
    ensures ProfileValid(body) && caller.id in users ==>
              && r.users == users[caller.id := ApplyProfile(users[caller.id], body)]
              && r.response == Reply(OK, Some(Public(r.users[caller.id])))
    ensures r.users.Keys == users.Keys
    ensures forall k | k in users ::
              && r.users[k].email == users[k].email && r.users[k].role == users[k].role
              && r.users[k].password == users[k].password && r.users[k].isEmailVerified == users[k].isEmailVerified
  {
    if !ProfileValid(body) then ProfileResult(Reject(BAD_REQUEST, "Validation failed"), users)
    else if caller.id !in users then ProfileResult(Reply(OK, None), users)
    else
      var updated := ApplyProfile(users[caller.id], body);
      ProfileResult(Reply(OK, Some(Public(updated))), users[caller.id := updated])
  }

  /** A name made of one visible character padded with white space is
      refused, however long the padding: the length is checked after
      trimming. */
  lemma {:induction false} PaddedShortNameRejected(users: Auth.Users, caller: Auth.User, name: string, k: nat)
    requires k < |name| && !Text.IsSpace(name[k])
    requires forall i :: 0 <= i < |name| && i != k ==> Text.IsSpace(name[i])
    ensures UpdateProfile(users, caller, ProfileBody(Some(name), None, None)) ==
              ProfileResult(Reject(BAD_REQUEST, "Validation failed"), users)
  {
    Text.TrimSingleVisible(name, k);
  }

  // ----- Password -----

  datatype PasswordResult = PasswordResult(response: Response<string>, users: Auth.Users)

  const MIN_PASSWORD: nat := 6

  /** `PUT /api/user/change-password`: 400 when the current password is
      absent or the new one is absent or shorter than six characters; 404
      when the caller's document has gone; 400 when the current password
      does not match; otherwise only the password changes. */
  function ChangePassword(users: Auth.Users, caller: Auth.User, current: Option<string>, newPassword: Option<string>)
    : (r: PasswordResult)
    ensures r.response.IsSuccess() <==>
              && current.Some? && newPassword.Some? && |newPassword.value| >= MIN_PASSWORD
              && caller.id in users && users[caller.id].password == current.value
    ensures r.response.IsSuccess() ==> r.users == users[caller.id := users[caller.id].(password := newPassword.value)]
    ensures !r.response.IsSuccess() ==> r.users == users
    ensures r.response.Status() == NOT_FOUND <==>
              current.Some? && newPassword.Some? && |newPassword.value| >= MIN_PASSWORD && caller.id !in users
  {
    if current.None? || newPassword.None? || |newPassword.value| < MIN_PASSWORD then
      PasswordResult(Reject(BAD_REQUEST, "Validation failed"), users)
    else if caller.id !in users then PasswordResult(Reject(NOT_FOUND, "User not found"), users)
    else if users[caller.id].password != current.value then
      PasswordResult(Reject(BAD_REQUEST, "Current password is incorrect"), users)
    else
      PasswordResult(Reply(OK, "Password changed successfully"), users[caller.id := users[caller.id].(password := newPassword.value)])
  }

  /** After a change the new password is the current one: changing it back
      with the two swapped succeeds and restores the stored users. */
  lemma {:induction false} ChangePasswordRoundTrip(users: Auth.Users, caller: Auth.User, previous: string, chosen: string)
    requires |previous| >= MIN_PASSWORD
    requires ChangePassword(users, caller, Some(previous), Some(chosen)).response.IsSuccess()
    ensures var after := ChangePassword(users, caller, Some(previous), Some(chosen)).users;
            ChangePassword(after, caller, Some(chosen), Some(previous)) == PasswordResult(Reply(OK, "Password changed successfully"), users)
  {
    var after := ChangePassword(users, caller, Some(previous), Some(chosen)).users;
    assert after[caller.id := after[caller.id].(password := previous)] == users;
  }
}
