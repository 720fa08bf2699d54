/** The client's admin dashboard page: the four headline figures, the
    status change it applies to its order list, and the low-stock styling
    of its inventory cards. */
module AdminPanel {
  import Seqs
  import Inventory

  /** An order row as the page holds it. */
  datatype PanelOrder = PanelOrder(id: string, customer: string, items: int, total: int, status: string)

  /** An inventory card as the page holds it. */
  datatype PanelItem = PanelItem(id: int, name: string, category: string, currentStock: int, maxStock: int, threshold: int, price: int)

  datatype Stats = Stats(totalOrders: nat, pendingOrders: nat, totalRevenue: int, lowStockItems: nat)

  predicate IsPending(o: PanelOrder) { o.status == "pending" }

  function OrderTotal(o: PanelOrder): int { o.total }

  /** A card is styled and flagged as low exactly when its stock is at or
      below its threshold. */
  predicate LowCard(item: PanelItem)
  {
    item.currentStock <= item.threshold
  }

  /** The page's figures: every order counts towards revenue, whatever its
      state; an item is low at or below its threshold. */
  function ComputeStats(orders: seq<PanelOrder>, inventory: seq<PanelItem>): (s: Stats)
    ensures s.totalOrders == |orders|
    ensures s.pendingOrders == |Seqs.Filter(orders, IsPending)| && s.pendingOrders <= s.totalOrders
    ensures s.totalRevenue == Seqs.Sum(orders, OrderTotal)
    ensures s.lowStockItems == |Seqs.Filter(inventory, LowCard)| && s.lowStockItems <= |inventory|
  {
    Seqs.CountIsFilterLength(orders, IsPending);
    Seqs.CountIsFilterLength(inventory, LowCard);
    Stats(|orders|, Seqs.Count(orders, IsPending), Seqs.Sum(orders, OrderTotal), Seqs.Count(inventory, LowCard))
  }

  /** The card rule is the server's low-stock rule. */
  lemma {:induction false} SameLowStockRule(card: PanelItem, item: Inventory.Item)
    requires card.currentStock == item.currentStock && card.threshold == item.threshold
    ensures LowCard(card) <==> Inventory.IsLowStock(item)
  {
  }

  /** A cancelled or unpaid order still adds to the page's revenue: one
      more order of any status raises it by that order's total. */
  lemma {:induction false} RevenueIgnoresStatus(orders: seq<PanelOrder>, o: PanelOrder, inventory: seq<PanelItem>)
    ensures ComputeStats(orders + [o], inventory).totalRevenue == ComputeStats(orders, inventory).totalRevenue + o.total
  {
    Seqs.SumAppend(orders, [o], OrderTotal);
    Seqs.SumSingleton(o, OrderTotal);
  }

  /** `updateOrderStatus`: every row with the id gets the new status (no
      check on the value); nothing else changes. */
  function SetStatus(orders: seq<PanelOrder>, id: string, status: string): (r: seq<PanelOrder>)
    ensures |r| == |orders|
    ensures forall i | 0 <= i < |r| ::
              r[i].status == (if orders[i].id == id then status else orders[i].status)
              && r[i].(status := orders[i].status) == orders[i]
  {
    seq(|orders|, i requires 0 <= i < |orders| =>
      if orders[i].id == id then orders[i].(status := status) else orders[i])
  }

  /** A status change never moves the order count or the revenue. */
  lemma {:induction false} SetStatusKeepsRevenue(orders: seq<PanelOrder>, id: string, status: string)
    ensures Seqs.Sum(SetStatus(orders, id, status), OrderTotal) == Seqs.Sum(orders, OrderTotal)
  {
    if |orders| > 0 {
      SetStatusKeepsRevenue(orders[1..], id, status);
      assert SetStatus(orders, id, status)[1..] == SetStatus(orders[1..], id, status);
    }
  }

  /** The later of two changes to the same order wins, and a change to an id
      the page does not hold changes nothing. */
  lemma {:induction false} SetStatusLastWins(orders: seq<PanelOrder>, id: string, first: string, second: string)
    ensures SetStatus(SetStatus(orders, id, first), id, second) == SetStatus(orders, id, second)
    ensures (forall i | 0 <= i < |orders| :: orders[i].id != id) ==> SetStatus(orders, id, first) == orders
  {
  }

  /** Marking an order pending that was not adds one to the pending count,
      when the page holds that id once. */
  lemma {:induction false} SetPendingCounts(orders: seq<PanelOrder>, k: nat)
    requires k < |orders| && !IsPending(orders[k])
    requires forall i | 0 <= i < |orders| && i != k :: orders[i].id != orders[k].id
    ensures Seqs.Count(SetStatus(orders, orders[k].id, "pending"), IsPending) == Seqs.Count(orders, IsPending) + 1
  {
    var r := SetStatus(orders, orders[k].id, "pending");
    if k == 0 {
      assert r[1..] == orders[1..];
    } else {
      var tail := orders[1..];
      assert tail[k - 1] == orders[k];
      SetPendingCounts(tail, k - 1);
      assert r[1..] == SetStatus(tail, orders[k].id, "pending");
      assert r[0] == orders[0];
    }
  }

  /** The data the page opens with. */
  const OPENING_INVENTORY: seq<PanelItem> := [
    PanelItem(1, "Thin Crust Base", "base", 45, 100, 20, 80),
    PanelItem(2, "Regular Base", "base", 15, 100, 20, 60),
    PanelItem(3, "Tomato Sauce", "sauce", 8, 50, 15, 0),
    PanelItem(4, "Mozzarella Cheese", "cheese", 5, 30, 10, 40)
  ]

  const OPENING_ORDERS: seq<PanelOrder> := [
    PanelOrder("ORD-001", "John Doe", 2, 997, "confirmed"),
    PanelOrder("ORD-002", "Jane Smith", 1, 449, "in-kitchen"),
    PanelOrder("ORD-003", "Mike Johnson", 3, 1247, "pending")
  ]

  /** On opening: three orders, one pending, 2693 in revenue, and three of
      the four items flagged low. */
  lemma {:induction false} OpeningStats()
    ensures ComputeStats(OPENING_ORDERS, OPENING_INVENTORY) == Stats(3, 1, 2693, 3)
  {
    assert !IsPending(OPENING_ORDERS[0]) && !IsPending(OPENING_ORDERS[1]) && IsPending(OPENING_ORDERS[2]);
    assert Seqs.Count(OPENING_ORDERS, IsPending) == 1;
    assert Seqs.Count(OPENING_INVENTORY, LowCard) == 3;
    assert Seqs.Sum(OPENING_ORDERS, OrderTotal) == 2693;
  }
}
