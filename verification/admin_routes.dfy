/** The admin routes of the server: the dashboard, the inventory listing
    (filtered, sorted by category then name, paged), restocking, and the
    order listing, detail and status overwrite. Inventory documents are
    addressed by their (name, category) key. */
module AdminRoutes {
  import opened Wrappers
  import opened Http
  import Seqs
  import Paging
  import opened Orders
  import opened Inventory
  import StockMonitor
  import Auth
  import OrderRoutes

  // ----- Dashboard -----

  /** The stored users whose role is "user"; admins are not counted. */
  function RegularUsers(users: Auth.Users): (r: set<Auth.UserId>)
    ensures r <= users.Keys
    ensures forall id :: id in r <==> id in users && users[id].role == Auth.USER_ROLE
  {
    set id | id in users && users[id].role == Auth.USER_ROLE
  }

  datatype Dashboard = Dashboard(
    totalUsers: nat,
    totalOrders: nat,
    todayOrders: nat,
    pendingOrders: nat,
    totalRevenue: real,
    inventorySummary: seq<StockMonitor.CategorySummary>)

  /** `GET /api/admin/dashboard`: the users with role "user", every order,
      the orders since local midnight (`todayStart`), the pending ones, the
      revenue of the paid orders (0 when none is paid) and the per-category
      inventory summary. */
  function AdminDashboard(users: Auth.Users, docs: seq<OrderRoutes.Doc>, items: seq<Item>, todayStart: int)
    : (r: Dashboard)
    ensures r.totalUsers == |RegularUsers(users)|
    ensures r.totalOrders == |docs|
    ensures r.todayOrders == Seqs.Count(docs, OrderRoutes.CreatedSince(todayStart))
    ensures r.pendingOrders == Seqs.Count(docs, OrderRoutes.InStatus(Pending))
    ensures r.totalRevenue == OrderRoutes.PaidSum(docs)
    ensures r.inventorySummary == StockMonitor.InventorySummary(items)
  {
    var stats := OrderRoutes.DashboardStats(docs, todayStart);
    Dashboard(|RegularUsers(users)|, stats.totalOrders, stats.todayOrders, stats.pendingOrders,
              OrderRoutes.Revenue(docs), StockMonitor.InventorySummary(items))
  }

  /** The admin dashboard and the order-stats route agree on every count
      they share and on the revenue. */
  lemma {:induction false} DashboardsAgree(users: Auth.Users, docs: seq<OrderRoutes.Doc>, items: seq<Item>, todayStart: int)
    ensures var d := AdminDashboard(users, docs, items, todayStart);
            var s := OrderRoutes.DashboardStats(docs, todayStart);
            && d.totalOrders == s.totalOrders && d.todayOrders == s.todayOrders
            && d.pendingOrders == s.pendingOrders && d.totalRevenue == s.totalRevenue
  {
  }

  /** Registering another admin leaves the user count alone; registering a
      new customer raises it by one. */
  lemma {:induction false} UserCountIgnoresAdmins(users: Auth.Users, u: Auth.User)
    requires u.id !in users
    ensures u.role != Auth.USER_ROLE ==> RegularUsers(users[u.id := u]) == RegularUsers(users)
    ensures u.role == Auth.USER_ROLE ==> |RegularUsers(users[u.id := u])| == |RegularUsers(users)| + 1
  {
    if u.role == Auth.USER_ROLE {
      assert RegularUsers(users[u.id := u]) == RegularUsers(users) + {u.id};
    }
  }

  // ----- Inventory listing -----

  /** Binary string order, character by character, as the store compares
      strings; a prefix comes first. */
  predicate StrLe(a: string, b: string)
  {
    |a| == 0 || (|b| > 0 && (a[0] < b[0] || (a[0] == b[0] && StrLe(a[1..], b[1..]))))
  }

  lemma {:induction false} StrLeTotal(a: string, b: string)
    ensures StrLe(a, b) || StrLe(b, a)
  {
    if |a| > 0 && |b| > 0 && a[0] == b[0] {
      StrLeTotal(a[1..], b[1..]);
    }
  }

  lemma {:induction false} StrLeAntisymmetric(a: string, b: string)
    requires StrLe(a, b) && StrLe(b, a)
    ensures a == b
  {
    if |a| > 0 {
      StrLeAntisymmetric(a[1..], b[1..]);
      assert a == [a[0]] + a[1..] && b == [b[0]] + b[1..];
    }
  }

  lemma {:induction false} StrLeTransitive(a: string, b: string, c: string)
    requires StrLe(a, b) && StrLe(b, c)
    ensures StrLe(a, c)
  {
    if |a| > 0 && a[0] == b[0] && b[0] == c[0] {
      StrLeTransitive(a[1..], b[1..], c[1..]);
    }
  }

  /** `sort({ category: 1, name: 1 })`: by the stored category name, then by
      the item name. */
  predicate ItemLe(a: Item, b: Item)
  {
    if a.category != b.category then StrLe(CategoryName(a.category), CategoryName(b.category))
    else StrLe(a.name, b.name)
  }

  lemma {:induction false} ItemLeTotal(a: Item, b: Item)
    ensures ItemLe(a, b) || ItemLe(b, a)
  {
    StrLeTotal(CategoryName(a.category), CategoryName(b.category));
    StrLeTotal(a.name, b.name);
  }

  lemma {:induction false} ItemLeTransitive(a: Item, b: Item, c: Item)
    requires ItemLe(a, b) && ItemLe(b, c)
    ensures ItemLe(a, c)
  {
    var ca, cb, cc := CategoryName(a.category), CategoryName(b.category), CategoryName(c.category);
    if a.category == b.category && b.category == c.category {
      StrLeTransitive(a.name, b.name, c.name);
    } else if a.category != b.category && b.category != c.category {
      StrLeTransitive(ca, cb, cc);
      if a.category == c.category {
        StrLeAntisymmetric(ca, cb);
        CategoryRoundTrip(a.category);
        CategoryRoundTrip(b.category);
        assert false;
      }
    }
  }

  /** Each item is in order with its successor. */
  predicate Sorted(s: seq<Item>)
  {
    forall i :: 0 < i < |s| ==> ItemLe(s[i - 1], s[i])
  }

  /** In a sorted listing every item is in order with every later one. */
  lemma {:induction false} SortedPairwise(s: seq<Item>, i: nat, j: nat)
    requires Sorted(s) && i <= j < |s|
    ensures ItemLe(s[i], s[j])
    decreases j - i
  {
    if i == j {
      StrLeTotal(s[i].name, s[i].name);
    } else {
      SortedPairwise(s, i + 1, j);
      ItemLeTransitive(s[i], s[i + 1], s[j]);
    }
  }

  function Insert(x: Item, s: seq<Item>): (r: seq<Item>)
    requires Sorted(s)
    ensures Sorted(r)
    ensures |r| == |s| + 1
    ensures multiset(r) == multiset(s) + multiset{x}
    ensures r[0] == x || (|s| > 0 && r[0] == s[0])
  {
    if |s| == 0 then [x]
    else if ItemLe(x, s[0]) then [x] + s
    else
      ItemLeTotal(x, s[0]);
      var rest := Insert(x, s[1..]);
      assert s == [s[0]] + s[1..];
      [s[0]] + rest
  }

  /** The listing order: a sorted rearrangement of the documents. */
  function Sort(s: seq<Item>): (r: seq<Item>)
    ensures Sorted(r)
    ensures |r| == |s|
    ensures multiset(r) == multiset(s)
  {
    if |s| == 0 then []
    else
      assert s == [s[0]] + s[1..];
      Insert(s[0], Sort(s[1..]))
  }

  /** `category` as a query field: an empty string is no filter, any other
      string keeps the items whose stored category is exactly that string. */
  function InCategory(category: string): Item -> bool
  {
    (i: Item) => CategoryName(i.category) == category
  }

  function InventoryQuery(docs: seq<Item>, category: string): (r: seq<Item>)
    ensures forall i :: i in r <==> i in docs && (|category| > 0 ==> CategoryName(i.category) == category)
  {
    if |category| == 0 then docs else Seqs.Filter(docs, InCategory(category))
  }

  datatype InventoryPage = InventoryPage(inventory: seq<Item>, totalPages: nat, total: nat)

  /** `GET /api/admin/inventory`: the category filter, the sort, then one
      page, with the number of matches and `ceil(total / limit)` pages. The
      page is the run of the sorted matches that starts after the skipped
      pages and holds at most `limit` of them. */
  function ListInventory(docs: seq<Item>, category: string, page: nat, limit: nat): (r: InventoryPage)
    requires page >= 1 && limit >= 1
    ensures r.total == |InventoryQuery(docs, category)|
    ensures |r.inventory| <= limit
    ensures r.totalPages * limit >= r.total && (r.totalPages > 0 ==> (r.totalPages - 1) * limit < r.total)
    ensures r.inventory == Paging.Page(Sort(InventoryQuery(docs, category)), page, limit)
  {
    var sorted := Sort(InventoryQuery(docs, category));
    InventoryPage(Paging.Page(sorted, page, limit), Paging.TotalPages(|sorted|, limit), |sorted|)
  }

  /** A listed page is in (category, name) order and holds only stored items
      of the requested category. */
  lemma {:induction false} ListInventoryContents(docs: seq<Item>, category: string, page: nat, limit: nat)
    requires page >= 1 && limit >= 1
    ensures var r := ListInventory(docs, category, page, limit);
            && Sorted(r.inventory)
            && forall i | i in r.inventory :: i in docs && (|category| > 0 ==> CategoryName(i.category) == category)
  {
    var matching := InventoryQuery(docs, category);
    PageOfSorted(Sort(matching), matching, page, limit);
  }

  /** A page is empty exactly when it lies past the last one. */
  lemma {:induction false} ListInventoryPastEnd(docs: seq<Item>, category: string, page: nat, limit: nat)
    requires page >= 1 && limit >= 1
    ensures var r := ListInventory(docs, category, page, limit);
            page > r.totalPages <==> r.inventory == []
  {
    Paging.PageBeyondEnd(Sort(InventoryQuery(docs, category)), page, limit);
  }

  /** A page of a sorted rearrangement is sorted and holds only entries of
      the original. */
  lemma {:induction false} PageOfSorted(sorted: seq<Item>, s: seq<Item>, page: nat, limit: nat)
    requires page >= 1 && limit >= 1
    requires Sorted(sorted) && multiset(sorted) == multiset(s)
    ensures Sorted(Paging.Page(sorted, page, limit))
    ensures forall i | i in Paging.Page(sorted, page, limit) :: i in s
  {
    var p := Paging.Page(sorted, page, limit);
    var base := Paging.Skip(page, limit);
    forall k | 0 < k < |p|
      ensures ItemLe(p[k - 1], p[k])
    {
      assert p[k - 1] == sorted[base + k - 1] && p[k] == sorted[base + k];
    }
    forall i | i in p
      ensures i in s
    {
      assert i in multiset(sorted);
    }
  }

  /** Walking pages 1 to `totalPages` lists every matching item exactly as
      often as the store holds it, in one sorted run. */
  lemma {:induction false} ListInventoryPagesCover(docs: seq<Item>, category: string, limit: nat)
    requires limit >= 1
    ensures var all := Paging.Pages(Sort(InventoryQuery(docs, category)), limit,
                                    ListInventory(docs, category, 1, limit).totalPages);
            Sorted(all) && multiset(all) == multiset(InventoryQuery(docs, category))
  {
    Paging.PagesCover(Sort(InventoryQuery(docs, category)), limit);
  }

  /** A category string that names no category matches nothing. */
  lemma {:induction false} UnknownCategoryListsNothing(docs: seq<Item>, category: string, page: nat, limit: nat)
    requires page >= 1 && limit >= 1
    requires |category| > 0 && ParseCategory(category).None?
    ensures ListInventory(docs, category, page, limit) == InventoryPage([], 0, 0)
  {
  }

  /** Base items come first in any listing: "base" sorts before every other
      category name. */
  lemma {:induction false} BaseSortsFirst(a: Item, b: Item)
    requires a.category == Base && b.category != Base
    ensures ItemLe(a, b) && !ItemLe(b, a)
  {
  }

  // ----- Restocking -----

  datatype Restocked = Restocked(response: Response<Item>, inv: Ledger)

  const INVALID_QUANTITY: string := "Invalid quantity"
  const ITEM_NOT_FOUND: string := "Inventory item not found"

  /** `POST /api/admin/inventory/:id/restock`: a missing, zero or negative
      quantity is 400 before the item is looked up; an unknown item is 404;
      otherwise `updateStock(quantity)` is applied and the item sent back. */
  function Restock(inv: Ledger, key: Key, quantity: Option<int>, now: int): (r: Restocked)
    ensures quantity.None? || quantity.value <= 0 ==> r == Restocked(Reject(BAD_REQUEST, INVALID_QUANTITY), inv)
    ensures quantity.Some? && quantity.value > 0 && key !in inv ==> r == Restocked(Reject(NOT_FOUND, ITEM_NOT_FOUND), inv)
    ensures r.response.IsSuccess() <==> quantity.Some? && quantity.value > 0 && key in inv
    ensures r.response.IsSuccess() ==>
              && r.inv == inv[key := UpdateStock(inv[key], quantity.value, now)]
              && r.response == Reply(OK, r.inv[key])
  {
    if quantity.None? || quantity.value <= 0 then Restocked(Reject(BAD_REQUEST, INVALID_QUANTITY), inv)
    else if key !in inv then Restocked(Reject(NOT_FOUND, ITEM_NOT_FOUND), inv)
    else
      var updated := UpdateStock(inv[key], quantity.value, now);
      Restocked(Reply(OK, updated), inv[key := updated])
  }

  /** A successful restock of a valid ledger adds exactly the quantity to
      that one item, stamps it, may take it past its maximum, and keeps the
      ledger valid. */
  lemma {:induction false} RestockEffect(inv: Ledger, key: Key, quantity: int, now: int)
    requires ValidLedger(inv) && key in inv && quantity > 0
    ensures var r := Restock(inv, key, Some(quantity), now);
            && r.inv.Keys == inv.Keys
            && r.inv[key].currentStock == inv[key].currentStock + quantity
            && r.inv[key].lastRestocked == now
            && (forall k | k in inv && k != key :: r.inv[k] == inv[k])
            && ValidLedger(r.inv)
  {
    assert Restock(inv, key, Some(quantity), now).inv == UpdateIfPresent(inv, key, quantity, now);
    UpdateIfPresentKeepsValid(inv, key, quantity, now);
  }

  /** Restocking a low item by more than its shortfall clears the low-stock
      flag. */
  lemma {:induction false} RestockClearsLow(inv: Ledger, key: Key, quantity: int, now: int)
    requires key in inv && quantity > inv[key].threshold - inv[key].currentStock && quantity > 0
    requires inv[key].currentStock >= 0
    ensures !IsLowStock(Restock(inv, key, Some(quantity), now).inv[key])
  {
  }

  // ----- Orders -----

  /** `GET /api/admin/orders`: the same status filter and pagination as
      the order route's admin listing. */
  function AdminOrders(docs: seq<OrderRoutes.Doc>, status: string, page: nat, limit: nat): (r: OrderRoutes.Listing)
    requires page >= 1 && limit >= 1
    ensures r == OrderRoutes.ListOrders(docs, status, page, limit)
    ensures forall d | d in r.orders :: d in docs && (|status| > 0 ==> StatusName(d.order.status) == status)
  {
    OrderRoutes.ListPage(OrderRoutes.StatusFilter(docs, status), page, limit)
  }

  /** `GET /api/admin/orders/:id`: any stored order, with no ownership
      check; 404 otherwise. */
  function AdminOrderDetail(store: OrderRoutes.OrderStore, id: OrderRoutes.OrderId): (r: Response<Order>)
    ensures r.IsSuccess() <==> id in store
    ensures r.IsSuccess() ==> r.body == store[id]
    ensures !r.IsSuccess() ==> r == Reject(NOT_FOUND, OrderRoutes.ORDER_NOT_FOUND)
  {
    if id in store then Reply(OK, store[id]) else Reject(NOT_FOUND, OrderRoutes.ORDER_NOT_FOUND)
  }

  /** The admin sees every order an owner sees, and more. */
  lemma {:induction false} AdminSeesWhatOwnerSees(store: OrderRoutes.OrderStore, users: set<Auth.UserId>, caller: Auth.User, id: OrderRoutes.OrderId)
    requires OrderRoutes.ViewOrder(store, users, caller, id).IsSuccess()
    ensures AdminOrderDetail(store, id) == OrderRoutes.ViewOrder(store, users, caller, id)
  {
  }

  /** `PUT /api/admin/orders/:id/status`: the same overwrite as the order
      route's status update, without the e-mail: 404, 500 for a string
      outside the enum, otherwise the new status, with the delivery time
      stamped exactly when it is `delivered`. */
  function UpdateOrderStatus(store: OrderRoutes.OrderStore, id: OrderRoutes.OrderId, status: string, now: int)
    : (r: OrderRoutes.Update<Order>)
    ensures r == OrderRoutes.SetStatus(store, id, status, now)
    ensures r.response.IsSuccess() <==> id in store && ParseStatus(status).Some?
    ensures r.response.IsSuccess() ==>
              && r.store.Keys == store.Keys
              && (r.store[id].actualDeliveryTime != store[id].actualDeliveryTime ==> status == "delivered")
              && (status == "delivered" ==> r.store[id].actualDeliveryTime == Some(now))
    ensures !r.response.IsSuccess() ==> r.store == store
  {
    OrderRoutes.SetStatus(store, id, status, now)
  }

  /** Marking an order delivered twice keeps the later time. */
  lemma {:induction false} RedeliveryRestamps(store: OrderRoutes.OrderStore, id: OrderRoutes.OrderId, now1: int, now2: int)
    requires id in store
    ensures var first := UpdateOrderStatus(store, id, "delivered", now1).store;
            UpdateOrderStatus(first, id, "delivered", now2).store[id].actualDeliveryTime == Some(now2)
  {
  }
}
