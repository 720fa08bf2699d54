/** The order routes of the server: placing an order (with its best-effort
    inventory fan-out), viewing, cancelling, the admin status and payment
    overwrites, the listings and the dashboard counts. Single-document
    routes work on the store as a map from id to order; listings and counts
    work on the documents as the store returns them, newest first. */
module OrderRoutes {
  import opened Wrappers
  import opened Http
  import Seqs
  import Paging
  import opened Orders
  import Inventory
  import StockMonitor
  import Auth

  type OrderId = nat
  type OrderStore = map<OrderId, Order>

  /** A stored order with its creation time, as listings return it. */
  datatype Doc = Doc(id: OrderId, order: Order, createdAt: int)

  /** The order the listing routes ask the store for (`sort({createdAt:
      -1})`): newest first. */
  predicate NewestFirst(docs: seq<Doc>)
  {
    forall i, j | 0 <= i < j < |docs| :: docs[i].createdAt >= docs[j].createdAt
  }

  /** No document of `s` is newer than `d`. */
  predicate NoneNewer(d: Doc, s: seq<Doc>)
  {
    forall j | 0 <= j < |s| :: d.createdAt >= s[j].createdAt
  }

  /** A newest-first list splits into its first document, no older than the
      rest, and the rest, newest first. */
  lemma {:induction false} NewestFirstSplit(docs: seq<Doc>)
    requires |docs| > 0 && NewestFirst(docs)
    ensures NoneNewer(docs[0], docs[1..]) && NewestFirst(docs[1..])
  {
    var rest := docs[1..];
    forall j | 0 <= j < |rest|
      ensures docs[0].createdAt >= rest[j].createdAt
    {
      assert rest[j] == docs[j + 1];
    }
    forall i, j | 0 <= i < j < |rest|
      ensures rest[i].createdAt >= rest[j].createdAt
    {
      assert rest[i] == docs[i + 1] && rest[j] == docs[j + 1];
    }
  }

  /** Putting a document no older than a newest-first list in front keeps it
      newest first. */
  lemma {:induction false} NewestFirstCons(d: Doc, s: seq<Doc>)
    requires NoneNewer(d, s) && NewestFirst(s)
    ensures NewestFirst([d] + s)
  {
    var r := [d] + s;
    forall i, j | 0 <= i < j < |r|
      ensures r[i].createdAt >= r[j].createdAt
    {
      assert r[j] == s[j - 1];
      if i > 0 {
        assert r[i] == s[i - 1];
      }
    }
  }

  /** What no document of a list is newer than, no document kept from it
      is. */
  lemma {:induction false} NoneNewerFilter(d: Doc, s: seq<Doc>, p: Doc -> bool)
    requires NoneNewer(d, s)
    ensures NoneNewer(d, Seqs.Filter(s, p))
  {
    var kept := Seqs.Filter(s, p);
    forall j | 0 <= j < |kept|
      ensures d.createdAt >= kept[j].createdAt
    {
      assert kept[j] in s;
    }
  }

  /** Keeping some of the documents keeps them newest first. */
  lemma {:induction false} FilterKeepsNewestFirst(docs: seq<Doc>, p: Doc -> bool)
    requires NewestFirst(docs)
    ensures NewestFirst(Seqs.Filter(docs, p))
  {
    if |docs| > 0 {
      var rest := docs[1..];
      NewestFirstSplit(docs);
      FilterKeepsNewestFirst(rest, p);
      if p(docs[0]) {
        NoneNewerFilter(docs[0], rest, p);
        NewestFirstCons(docs[0], Seqs.Filter(rest, p));
        assert Seqs.Filter(docs, p) == [docs[0]] + Seqs.Filter(rest, p);
      } else {
        assert Seqs.Filter(docs, p) == Seqs.Filter(rest, p);
      }
    }
  }

  predicate IsAdmin(u: Auth.User)
  {
    u.role == Auth.ADMIN_ROLE
  }

  /** The outcome of a route that may write one order. */
  datatype Update<T> = Update(response: Response<T>, store: OrderStore)

  // ----- Placing an order -----

  /** The body of `POST /api/order`; `items` is `None` when absent. */
  datatype CreateBody = CreateBody(
    items: Option<seq<OrderLine>>,
    deliveryAddress: Address,
    specialInstructions: string,
    paymentMethod: string)

  /** The document `Order.create` builds from the body: the computed fields
      are absent until the hooks run. */
  datatype Draft = Draft(
    user: Auth.UserId,
    items: seq<OrderLine>,
    paymentMethod: string,
    deliveryAddress: Address,
    specialInstructions: string,
    orderNumber: Option<string>,
    totals: Option<Totals>)

  /** Schema validation: the required order number (a non-empty string),
      subtotal and total, quantities of at least 1, and a payment method from
      the enum. */
  predicate SchemaValid(d: Draft)
  {
    && d.orderNumber.Some? && |d.orderNumber.value| > 0
    && d.totals.Some?
    && ValidLines(d.items)
    && ParsePaymentMethod(d.paymentMethod).Some?
  }

  /** Both save hooks on a new document. */
  function RunHooks(d: Draft, date: Date, todayCount: nat): (r: Draft)
    ensures r.orderNumber == Some(OrderNumber(date, todayCount))
    ensures r.totals == Some(ComputeTotals(d.items))
    ensures r.(orderNumber := d.orderNumber, totals := d.totals) == d
  {
    d.(orderNumber := Some(OrderNumber(date, todayCount)), totals := Some(ComputeTotals(d.items)))
  }

  /** The stored document: status and payment status take their `pending`
      defaults and there is no delivery time yet. */
  function Persist(d: Draft): Order
    requires SchemaValid(d)
  {
    var t := d.totals.value;
    Order(d.user, d.orderNumber.value, d.items, t.subtotal, t.tax, t.deliveryFee, t.total,
          Pending, PaymentPending, ParsePaymentMethod(d.paymentMethod).value,
          d.deliveryAddress, d.specialInstructions, None, None)
  }

  function DraftOf(user: Auth.UserId, items: seq<OrderLine>, body: CreateBody): Draft
  {
    Draft(user, items, body.paymentMethod, body.deliveryAddress, body.specialInstructions, None, None)
  }

  /** `save()` as the schema declares it: validation first, then the
      `pre("save")` hooks. A new draft has no order number and no totals yet,
      so validation rejects it whatever the body holds. */
  function SaveAsWritten(d: Draft, date: Date, todayCount: nat): Option<Order>
  {
    if SchemaValid(d) then Some(Persist(RunHooks(d, date, todayCount))) else None
  }

  /** The evidently intended save: the hooks fill the computed fields, then
      validation runs. */
  function Save(d: Draft, date: Date, todayCount: nat): (r: Option<Order>)
    ensures r.Some? <==> ValidLines(d.items) && ParsePaymentMethod(d.paymentMethod).Some?
  {
    var h := RunHooks(d, date, todayCount);
    OrderNumberNonEmpty(date, todayCount);
    if SchemaValid(h) then Some(Persist(h)) else None
  }

  lemma {:induction false} OrderNumberNonEmpty(date: Date, todayCount: nat)
    ensures |OrderNumber(date, todayCount)| > 0
  {
    assert Text.StartsWith(OrderNumber(date, todayCount), "PZ");
  }

  /** As written no new order is ever saved. */
  lemma {:induction false} NewDraftNeverSavesAsWritten(user: Auth.UserId, items: seq<OrderLine>, body: CreateBody, date: Date, todayCount: nat)
    ensures SaveAsWritten(DraftOf(user, items, body), date, todayCount).None?
  {
  }

  /** The intended save stores exactly the order `NewOrder` describes. */
  lemma {:induction false} SaveIsNewOrder(user: Auth.UserId, items: seq<OrderLine>, body: CreateBody, date: Date, todayCount: nat)
    requires ValidLines(items)
    requires ParsePaymentMethod(body.paymentMethod).Some?
    ensures Save(DraftOf(user, items, body), date, todayCount)
            == Some(NewOrder(user, items, body.deliveryAddress, body.specialInstructions,
                             ParsePaymentMethod(body.paymentMethod).value, date, todayCount))
  {
  }

  /** The result of placing an order: the response, the order store and the
      inventory ledger afterwards. */
  datatype Placed = Placed(response: Response<Order>, store: OrderStore, inv: Inventory.Ledger)

  const EMPTY_ORDER: string := "Order must contain at least one item"
  const SERVER_ERROR_MESSAGE: string := "Server error"

  /** `POST /api/order` with a given `save`: no items is 400; a failed save
      is 500; otherwise the order is stored, the inventory fan-out runs and
      whatever it throws is swallowed, and the answer is 201. */
  function PlaceWith(save: Option<Order>, store: OrderStore, inv: Inventory.Ledger, body: CreateBody,
                     newId: OrderId, now: int): Placed
  {
    if body.items.None? || |body.items.value| == 0 then Placed(Reject(BAD_REQUEST, EMPTY_ORDER), store, inv)
    else if save.None? then Placed(Reject(SERVER_ERROR, SERVER_ERROR_MESSAGE), store, inv)
    else
      var fan := StockMonitor.ApplyLines(inv, body.items.value, now);
      Placed(Reply(CREATED, save.value), store[newId := save.value], fan.inv)
  }

  /** The route as written: every non-empty order is answered 500. */
  function CreateOrderAsWritten(store: OrderStore, inv: Inventory.Ledger, caller: Auth.User, body: CreateBody,
                                newId: OrderId, date: Date, todayCount: nat, now: int): (r: Placed)
    ensures body.items.Some? && |body.items.value| > 0 ==>
              r == Placed(Reject(SERVER_ERROR, SERVER_ERROR_MESSAGE), store, inv)
  {
    var items := if body.items.Some? then body.items.value else [];
    NewDraftNeverSavesAsWritten(caller.id, items, body, date, todayCount);
    PlaceWith(SaveAsWritten(DraftOf(caller.id, items, body), date, todayCount), store, inv, body, newId, now)
  }

  /** `POST /api/order` with the intended save. `newId` is the fresh id the
      store assigns and `now` the fan-out's clock. */
  function CreateOrder(store: OrderStore, inv: Inventory.Ledger, caller: Auth.User, body: CreateBody,
                       newId: OrderId, date: Date, todayCount: nat, now: int): (r: Placed)
    requires newId !in store
    ensures body.items.None? || |body.items.value| == 0 ==>
              r == Placed(Reject(BAD_REQUEST, EMPTY_ORDER), store, inv)
    ensures r.response.Status() == SERVER_ERROR <==>
              && body.items.Some? && |body.items.value| > 0
              && !(ValidLines(body.items.value) && ParsePaymentMethod(body.paymentMethod).Some?)
    ensures !r.response.IsSuccess() ==> r.store == store && r.inv == inv
    ensures r.response.IsSuccess() ==>
              && body.items.Some? && |body.items.value| > 0 && ValidLines(body.items.value)
              && r.response.code == CREATED
              && r.response.body == NewOrder(caller.id, body.items.value, body.deliveryAddress, body.specialInstructions,
                                            ParsePaymentMethod(body.paymentMethod).value, date, todayCount)
              && r.store == store[newId := r.response.body]
              && r.inv == StockMonitor.ApplyLines(inv, body.items.value, now).inv
  {
    var items := if body.items.Some? then body.items.value else [];
    var save := Save(DraftOf(caller.id, items, body), date, todayCount);
    assert save.Some? ==> save.value == NewOrder(caller.id, items, body.deliveryAddress, body.specialInstructions,
                                                 ParsePaymentMethod(body.paymentMethod).value, date, todayCount) by {
      if save.Some? {
        SaveIsNewOrder(caller.id, items, body, date, todayCount);
      }
    }
    PlaceWith(save, store, inv, body, newId, now)
  }

  /** A line with no customizations stops the fan-out part-way, yet the
      order is stored and answered 201: the failure is swallowed and the
      earlier lines' decrements stay. */
  lemma {:induction false} InventoryFailureSwallowed(store: OrderStore, inv: Inventory.Ledger, caller: Auth.User, body: CreateBody,
                                  newId: OrderId, date: Date, todayCount: nat, now: int, i: nat)
    requires newId !in store
    requires body.items.Some? && i < |body.items.value|
    requires ValidLines(body.items.value) && ParsePaymentMethod(body.paymentMethod).Some?
    requires body.items.value[i].customizations.None?
    requires forall j :: 0 <= j < i ==> body.items.value[j].customizations.Some?
    ensures CreateOrder(store, inv, caller, body, newId, date, todayCount, now).response.Status() == CREATED
    ensures CreateOrder(store, inv, caller, body, newId, date, todayCount, now).inv
            == StockMonitor.ApplyLines(inv, body.items.value[..i], now).inv
  {
    StockMonitor.FanOutStopsAtMissing(inv, body.items.value, now, i);
  }

  // ----- Viewing and cancelling -----

  const ORDER_NOT_FOUND: string := "Order not found"

  /** `GET /api/order/:id`: 404 for an unknown id; 500 when the owner's user
      document is gone (the populated owner is null and reading its id
      throws); 403 unless the caller owns the order or is an admin. */
  function ViewOrder(store: OrderStore, users: set<Auth.UserId>, caller: Auth.User, id: OrderId): (r: Response<Order>)
    ensures id !in store ==> r == Reject(NOT_FOUND, ORDER_NOT_FOUND)
    ensures id in store && store[id].user !in users ==> r.Status() == SERVER_ERROR
    ensures r.IsSuccess() <==> id in store && store[id].user in users && (store[id].user == caller.id || IsAdmin(caller))
    ensures r.IsSuccess() ==> r == Reply(OK, store[id])
    ensures id in store && store[id].user in users && !r.IsSuccess() ==> r.Status() == FORBIDDEN
  {
    if id !in store then Reject(NOT_FOUND, ORDER_NOT_FOUND)
    else if store[id].user !in users then Reject(SERVER_ERROR, SERVER_ERROR_MESSAGE)
    else if store[id].user != caller.id && !IsAdmin(caller) then Reject(FORBIDDEN, "Not authorized to view this order")
    else Reply(OK, store[id])
  }

  const CANCELLED_MESSAGE: string := "Order cancelled successfully"
  const CANNOT_CANCEL: string := "Order cannot be cancelled at this stage"

  /** The cancel steps shared by both cancel routes once the caller is
      allowed: only a pending order becomes cancelled. */
  function CancelAllowed(store: OrderStore, id: OrderId): (r: Update<string>)
    requires id in store
    ensures r.response.IsSuccess() <==> store[id].status == Pending
    ensures r.response.IsSuccess() ==> r.store == store[id := store[id].(status := Cancelled)]
    ensures !r.response.IsSuccess() ==> r == Update(Reject(BAD_REQUEST, CANNOT_CANCEL), store)
  {
    if store[id].status != Pending then Update(Reject(BAD_REQUEST, CANNOT_CANCEL), store)
    else Update(Reply(OK, CANCELLED_MESSAGE), store[id := store[id].(status := Cancelled)])
  }

  /** `DELETE /api/order/:id`: 404, then 403 unless owner or admin, then
      400 unless pending; otherwise the order becomes cancelled and nothing
      else changes. */
  function CancelOrder(store: OrderStore, caller: Auth.User, id: OrderId): (r: Update<string>)
    ensures id !in store ==> r == Update(Reject(NOT_FOUND, ORDER_NOT_FOUND), store)
    ensures id in store && store[id].user != caller.id && !IsAdmin(caller) ==> r.response.Status() == FORBIDDEN && r.store == store
    ensures r.response.IsSuccess() <==>
              id in store && (store[id].user == caller.id || IsAdmin(caller)) && store[id].status == Pending
    ensures r.response.IsSuccess() ==>
              && r.store.Keys == store.Keys
              && r.store[id] == store[id].(status := Cancelled)
              && forall k | k in store && k != id :: r.store[k] == store[k]
    ensures !r.response.IsSuccess() ==> r.store == store
  {
    if id !in store then Update(Reject(NOT_FOUND, ORDER_NOT_FOUND), store)
    else if store[id].user != caller.id && !IsAdmin(caller) then
      Update(Reject(FORBIDDEN, "Not authorized to cancel this order"), store)
    else CancelAllowed(store, id)
  }

  /** Cancelling is the only way out of `pending` these routes offer, and it
      cannot be repeated: the second attempt is 400 and changes nothing. */
  lemma {:induction false} CancelTwiceRejected(store: OrderStore, caller: Auth.User, id: OrderId)
    requires CancelOrder(store, caller, id).response.IsSuccess()
    ensures var after := CancelOrder(store, caller, id).store;
            CancelOrder(after, caller, id) == Update(Reject(BAD_REQUEST, CANNOT_CANCEL), after)
  {
  }

  // ----- Admin overwrites -----

  /** `PUT /api/order/:id/status`: 404 for an unknown id; a string outside
      the status enum fails validation on save (500, nothing stored);
      otherwise the status is overwritten whatever it was, and the delivery
      time is stamped with `now` exactly when the new status is
      `delivered`. The status e-mail that follows is best-effort and plays no
      part in the answer. */
  function SetStatus(store: OrderStore, id: OrderId, status: string, now: int): (r: Update<Order>)
    ensures id !in store ==> r == Update(Reject(NOT_FOUND, ORDER_NOT_FOUND), store)
    ensures id in store && ParseStatus(status).None? ==> r == Update(Reject(SERVER_ERROR, SERVER_ERROR_MESSAGE), store)
    ensures r.response.IsSuccess() <==> id in store && ParseStatus(status).Some?
    ensures r.response.IsSuccess() ==>
              && StatusName(r.response.body.status) == status
              && (status == "delivered" ==> r.response.body.actualDeliveryTime == Some(now))
              && (status != "delivered" ==> r.response.body.actualDeliveryTime == store[id].actualDeliveryTime)
              && r.response.body.(status := store[id].status, actualDeliveryTime := store[id].actualDeliveryTime) == store[id]
              && r.store == store[id := r.response.body]
  {
    if id !in store then Update(Reject(NOT_FOUND, ORDER_NOT_FOUND), store)
    else match ParseStatus(status)
      case None => Update(Reject(SERVER_ERROR, SERVER_ERROR_MESSAGE), store)
      case Some(s) =>
        var o := store[id];
        var stamped := if status == "delivered" then Some(now) else o.actualDeliveryTime;
        var updated := o.(status := s, actualDeliveryTime := stamped);
        Update(Reply(OK, updated), store[id := updated])
  }

  /** No transition is checked: any stored order can be moved to any status,
      a cancelled one back to pending included. */
  lemma {:induction false} StatusOverwriteUnchecked(store: OrderStore, id: OrderId, s: Status, now: int)
    requires id in store
    ensures SetStatus(store, id, StatusName(s), now).response.IsSuccess()
    ensures SetStatus(store, id, StatusName(s), now).store[id].status == s
  {
    StatusRoundTrip(s);
  }

  /** `PUT /api/order/:id/payment-status`: 404, 500 for a string outside the
      payment-status enum, otherwise the payment status is overwritten and,
      when the body carries a non-empty `razorpayPaymentId`, so is the
      stored payment id; nothing else changes. */
  function SetPaymentStatus(store: OrderStore, id: OrderId, paymentStatus: string, paymentId: Option<string>)
    : (r: Update<Order>)
    ensures id !in store ==> r == Update(Reject(NOT_FOUND, ORDER_NOT_FOUND), store)
    ensures r.response.IsSuccess() <==> id in store && ParsePaymentStatus(paymentStatus).Some?
    ensures !r.response.IsSuccess() ==> r.store == store
    ensures r.response.IsSuccess() ==>
              && PaymentStatusName(r.response.body.paymentStatus) == paymentStatus
              && (paymentId.Some? && paymentId.value != "" ==> r.response.body.razorpayPaymentId == paymentId)
              && (paymentId.None? || paymentId.value == "" ==>
                    r.response.body.razorpayPaymentId == store[id].razorpayPaymentId)
              && r.response.body.(paymentStatus := store[id].paymentStatus,
                                  razorpayPaymentId := store[id].razorpayPaymentId) == store[id]
              && r.store == store[id := r.response.body]
  {
    if id !in store then Update(Reject(NOT_FOUND, ORDER_NOT_FOUND), store)
    else match ParsePaymentStatus(paymentStatus)
      case None => Update(Reject(SERVER_ERROR, SERVER_ERROR_MESSAGE), store)
      case Some(p) =>
        var o := store[id];
        var recorded := if paymentId.Some? && paymentId.value != "" then paymentId else o.razorpayPaymentId;
        var updated := o.(paymentStatus := p, razorpayPaymentId := recorded);
        Update(Reply(OK, updated), store[id := updated])
  }

  /** Marking an order paid with a gateway id records both, and a later
      update without an id keeps the recorded one. */
  lemma {:induction false} PaymentIdSticks(store: OrderStore, id: OrderId, paymentId: string, later: string)
    requires id in store && paymentId != ""
    requires ParsePaymentStatus(later).Some?
    ensures var first := SetPaymentStatus(store, id, "completed", Some(paymentId)).store;
            && first[id].paymentStatus == Completed && first[id].razorpayPaymentId == Some(paymentId)
            && SetPaymentStatus(first, id, later, None).store[id].razorpayPaymentId == Some(paymentId)
  {
    PaymentStatusRoundTrip(Completed);
  }

  // ----- Listings -----

  function OwnedBy(user: Auth.UserId): Doc -> bool
  {
    (d: Doc) => d.order.user == user
  }

  function HasStatusName(status: string): Doc -> bool
  {
    (d: Doc) => StatusName(d.order.status) == status
  }

  /** `GET /api/order/my-orders`: the caller's orders, in store order. */
  function MyOrders(docs: seq<Doc>, caller: Auth.User): (r: seq<Doc>)
    ensures forall d :: d in r <==> d in docs && d.order.user == caller.id
    ensures Seqs.IsSubsequence(r, docs)
  {
    Seqs.Filter(docs, OwnedBy(caller.id))
  }

  /** The `status` query filter: an empty or absent string selects
      everything, any other string the orders whose status has that name
      (none, when it names no status). */
  function StatusFilter(docs: seq<Doc>, status: string): (r: seq<Doc>)
    ensures |status| == 0 ==> r == docs
    ensures |status| > 0 ==> forall d :: d in r <==> d in docs && StatusName(d.order.status) == status
    ensures |status| > 0 && ParseStatus(status).None? ==> r == []
    ensures Seqs.IsSubsequence(r, docs)
  {
    Seqs.SubsequenceRefl(docs);
    if |status| == 0 then docs else Seqs.Filter(docs, HasStatusName(status))
  }

  datatype Listing = Listing(orders: seq<Doc>, totalPages: nat, total: nat)

  /** One page of a filtered listing, with the count of all matches and
      `ceil(total / limit)` pages. */
  function ListPage(matching: seq<Doc>, page: nat, limit: nat): (r: Listing)
    requires page >= 1 && limit >= 1
    ensures r.total == |matching|
    ensures |r.orders| <= limit
    ensures forall d | d in r.orders :: d in matching
    ensures |r.orders| == if Paging.Skip(page, limit) >= |matching| then 0
                          else Paging.Min(limit, |matching| - Paging.Skip(page, limit))
    ensures forall i | 0 <= i < |r.orders| :: r.orders[i] == matching[Paging.Skip(page, limit) + i]
    ensures r.totalPages * limit >= r.total && (r.totalPages > 0 ==> (r.totalPages - 1) * limit < r.total)
    ensures page > r.totalPages <==> r.orders == []
  {
    Paging.PageBeyondEnd(matching, page, limit);
    Listing(Paging.Page(matching, page, limit), Paging.TotalPages(|matching|, limit), |matching|)
  }

  /** `GET /api/order` (admin): the status filter, then one page. */
  function ListOrders(docs: seq<Doc>, status: string, page: nat, limit: nat): (r: Listing)
    requires page >= 1 && limit >= 1
    ensures r == ListPage(StatusFilter(docs, status), page, limit)
    ensures forall d | d in r.orders :: d in docs && (|status| > 0 ==> StatusName(d.order.status) == status)
  {
    ListPage(StatusFilter(docs, status), page, limit)
  }

  /** Walking every page of a listing visits each matching order exactly
      once, in store order. */
  lemma {:induction false} ListingPagesCover(docs: seq<Doc>, status: string, limit: nat)
    requires limit >= 1
    ensures var matching := StatusFilter(docs, status);
            Paging.Pages(matching, limit, ListOrders(docs, status, 1, limit).totalPages) == matching
  {
    Paging.PagesCover(StatusFilter(docs, status), limit);
  }

  // ----- Revenue and dashboard counts -----

  predicate IsPaid(d: Doc)
  {
    d.order.paymentStatus == Completed
  }

  /** Σ total over the documents, in order. */
  function SumTotals(docs: seq<Doc>): real
  {
    if |docs| == 0 then 0.0 else docs[0].order.total + SumTotals(docs[1..])
  }

  /** The `$match` / `$group` pipeline: no group at all when nothing
      matches, otherwise one group holding the sum. */
  function PaidGroup(docs: seq<Doc>): (r: Option<real>)
    ensures r.None? <==> forall i :: 0 <= i < |docs| ==> !IsPaid(docs[i])
  {
    var paid := Seqs.Filter(docs, IsPaid);
    if |paid| == 0 then None else Some(SumTotals(paid))
  }

  /** `totalRevenue[0]?.total || 0`. */
  function Revenue(docs: seq<Doc>): real
  {
    PaidGroup(docs).GetOr(0.0)
  }

  /** Independent definition: every paid order adds its total, every other
      order adds nothing. */
  function PaidSum(docs: seq<Doc>): real
  {
    if |docs| == 0 then 0.0
    else (if IsPaid(docs[0]) then docs[0].order.total else 0.0) + PaidSum(docs[1..])
  }

  /** The pipeline and the `|| 0` fallback compute the sum of the paid
      totals, which is 0 when nothing is paid. */
  lemma {:induction false} RevenueIsPaidSum(docs: seq<Doc>)
    ensures Revenue(docs) == PaidSum(docs)
  {
    PaidSumFilter(docs);
  }

  lemma {:induction false} PaidSumFilter(docs: seq<Doc>)
    ensures SumTotals(Seqs.Filter(docs, IsPaid)) == PaidSum(docs)
  {
    if |docs| > 0 {
      PaidSumFilter(docs[1..]);
      if IsPaid(docs[0]) {
        assert Seqs.Filter(docs, IsPaid)[1..] == Seqs.Filter(docs[1..], IsPaid);
      }
    }
  }

  /** Revenue adds up over any split of the documents. */
  lemma {:induction false} PaidSumAppend(a: seq<Doc>, b: seq<Doc>)
    ensures PaidSum(a + b) == PaidSum(a) + PaidSum(b)
  {
    if |a| == 0 {
      assert a + b == b;
    } else {
      assert (a + b)[1..] == a[1..] + b;
      PaidSumAppend(a[1..], b);
    }
  }

  /** Unpaid orders never count, whatever their totals. */
  lemma {:induction false} UnpaidAddNothing(docs: seq<Doc>)
    requires forall i :: 0 <= i < |docs| ==> !IsPaid(docs[i])
    ensures PaidSum(docs) == 0.0
  {
    if |docs| > 0 {
      UnpaidAddNothing(docs[1..]);
    }
  }

  function CreatedSince(start: int): Doc -> bool
  {
    (d: Doc) => d.createdAt >= start
  }

  function InStatus(s: Status): Doc -> bool
  {
    (d: Doc) => d.order.status == s
  }

  datatype OrderStats = OrderStats(
    totalOrders: nat,
    todayOrders: nat,
    pendingOrders: nat,
    completedOrders: nat,
    totalRevenue: real)

  /** `GET /api/order/stats/dashboard`: all orders, those created since
      local midnight (`todayStart`), the pending ones, the delivered ones
      (reported as "completed"), and the paid revenue. */
  function DashboardStats(docs: seq<Doc>, todayStart: int): (r: OrderStats)
    ensures r.totalOrders == |docs|
    ensures r.todayOrders == Seqs.Count(docs, CreatedSince(todayStart))
    ensures r.pendingOrders == Seqs.Count(docs, InStatus(Pending))
    ensures r.completedOrders == Seqs.Count(docs, InStatus(Delivered))
    ensures r.totalRevenue == PaidSum(docs)
    ensures r.pendingOrders + r.completedOrders <= r.totalOrders
  {
    RevenueIsPaidSum(docs);
    StatusCountsDisjoint(docs);
    OrderStats(|docs|, Seqs.Count(docs, CreatedSince(todayStart)), Seqs.Count(docs, InStatus(Pending)),
               Seqs.Count(docs, InStatus(Delivered)), Revenue(docs))
  }

  lemma {:induction false} StatusCountsDisjoint(docs: seq<Doc>)
    ensures Seqs.Count(docs, InStatus(Pending)) + Seqs.Count(docs, InStatus(Delivered)) <= |docs|
  {
    if |docs| > 0 {
      StatusCountsDisjoint(docs[1..]);
    }
  }
}
