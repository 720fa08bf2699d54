/** The inventory item of the server: its schema constraints, the low-stock
    predicate and the clamped stock update, and the ledger of all items keyed
    by (name, category). */
module Inventory {
  import opened Wrappers
  import Text
  import Seqs

  datatype Category = Base | Sauce | Cheese | Veggies | Meat

  /** The stored spelling of each category. */
  function CategoryName(c: Category): string
  {
    match c
    case Base => "base"
    case Sauce => "sauce"
    case Cheese => "cheese"
    case Veggies => "veggies"
    case Meat => "meat"
  }

  /** The schema's category enum: a stored string names a category or is
      rejected by validation. */
  function ParseCategory(s: string): (r: Option<Category>)
    ensures r.Some? ==> CategoryName(r.value) == s
    ensures r.None? ==> forall c: Category :: CategoryName(c) != s
  {
    if s == "base" then Some(Base)
    else if s == "sauce" then Some(Sauce)
    else if s == "cheese" then Some(Cheese)
    else if s == "veggies" then Some(Veggies)
    else if s == "meat" then Some(Meat)
    else None
  }

  lemma {:induction false} CategoryRoundTrip(c: Category)
    ensures ParseCategory(CategoryName(c)) == Some(c)
  {
  }

  datatype Unit = Pieces | Kg | Liters | Grams

  function UnitName(u: Unit): string
  {
    match u
    case Pieces => "pieces"
    case Kg => "kg"
    case Liters => "liters"
    case Grams => "grams"
  }

  /** The schema's unit enum. */
  function ParseUnit(s: string): (r: Option<Unit>)
    ensures r.Some? ==> UnitName(r.value) == s
    ensures r.None? ==> forall u: Unit :: UnitName(u) != s
  {
    if s == "pieces" then Some(Pieces)
    else if s == "kg" then Some(Kg)
    else if s == "liters" then Some(Liters)
    else if s == "grams" then Some(Grams)
    else None
  }

  lemma {:induction false} UnitRoundTrip(u: Unit)
    ensures ParseUnit(UnitName(u)) == Some(u)
  {
  }

  /** One inventory document. Times are opaque integers (milliseconds); the
      informational supplier block is not modelled. */
  datatype Item = Item(
    name: string,
    category: Category,
    currentStock: int,
    maxStock: int,
    threshold: int,
    unit: Unit,
    price: int,
    isAvailable: bool,
    lastRestocked: int)

  /** The identity the ledger looks items up by. */
  datatype Key = Key(name: string, category: Category)

  function KeyOf(item: Item): Key
  {
    Key(item.name, item.category)
  }

  /** What the schema accepts: a required trimmed name, and no negative
      stock, maximum, threshold or price. Category and unit are enum-valid
      by construction. */
  predicate Valid(item: Item)
  {
    && |item.name| > 0
    && Text.Trim(item.name) == item.name
    && item.currentStock >= 0
    && item.maxStock >= 0
    && item.threshold >= 0
    && item.price >= 0
  }

  /** `isLowStock`: at or below the threshold; the boundary counts as low. */
  predicate IsLowStock(item: Item)
  {
    item.currentStock <= item.threshold
  }

  lemma {:induction false} LowStockBoundary(item: Item)
    ensures item.currentStock == item.threshold ==> IsLowStock(item)
    ensures item.currentStock == item.threshold + 1 ==> !IsLowStock(item)
  {
  }

  /** `updateStock(quantity)`: the stock moves by `quantity` but never below
      zero; a positive quantity stamps `lastRestocked` with `now`. Nothing
      else changes, and there is no cap at `maxStock`. */
  function UpdateStock(item: Item, quantity: int, now: int): (r: Item)
    ensures r.currentStock >= 0
    ensures r.currentStock >= item.currentStock + quantity
    ensures r.currentStock == 0 || r.currentStock == item.currentStock + quantity
    ensures quantity > 0 ==> r.lastRestocked == now
    ensures quantity <= 0 ==> r.lastRestocked == item.lastRestocked
    ensures r.(currentStock := item.currentStock, lastRestocked := item.lastRestocked) == item
  {
    var stock := if item.currentStock + quantity > 0 then item.currentStock + quantity else 0;
    item.(currentStock := stock, lastRestocked := if quantity > 0 then now else item.lastRestocked)
  }

  /** A restock of a valid item adds exactly the quantity, even past
      `maxStock`. */
  lemma {:induction false} RestockAddsExactly(item: Item, quantity: int, now: int)
    requires Valid(item) && quantity > 0
    ensures UpdateStock(item, quantity, now).currentStock == item.currentStock + quantity
    ensures item.currentStock + quantity > item.maxStock ==>
              UpdateStock(item, quantity, now).currentStock > item.maxStock
  {
  }

  lemma {:induction false} UpdateStockKeepsValid(item: Item, quantity: int, now: int)
    requires Valid(item)
    ensures Valid(UpdateStock(item, quantity, now))
    ensures KeyOf(UpdateStock(item, quantity, now)) == KeyOf(item)
  {
  }

  /** Two decrements equal one decrement by their sum: the clamp at zero
      loses nothing when every step goes down, and the time stamps play no
      part. */
  lemma {:induction false} DecrementsCompose(item: Item, a: int, b: int, now1: int, now2: int, now3: int)
    requires a <= 0 && b <= 0
    ensures UpdateStock(UpdateStock(item, a, now1), b, now2) == UpdateStock(item, a + b, now3)
  {
  }

  /** A run of `updateStock` calls, one per delta. */
  function ApplyDeltas(item: Item, deltas: seq<int>, now: int): Item
    decreases |deltas|
  {
    if |deltas| == 0 then item
    else ApplyDeltas(UpdateStock(item, deltas[0], now), deltas[1..], now)
  }

  function Total(deltas: seq<int>): int
  {
    Seqs.Sum(deltas, (d: int) => d)
  }

  /** With only non-positive deltas the final stock is the clamped total.
      (Mixed signs break this; see `MixedDeltasNotClampedTotal`.) */
  lemma {:induction false} DecreasingDeltasClampOnce(item: Item, deltas: seq<int>, now: int)
    requires forall i :: 0 <= i < |deltas| ==> deltas[i] <= 0
    requires item.currentStock >= 0
    ensures var total := item.currentStock + Total(deltas);
            ApplyDeltas(item, deltas, now).currentStock == if total > 0 then total else 0
    ensures ApplyDeltas(item, deltas, now).lastRestocked == item.lastRestocked
    decreases |deltas|
  {
    if |deltas| > 0 {
      var next := UpdateStock(item, deltas[0], now);
      DecreasingDeltasClampOnce(next, deltas[1..], now);
      if item.currentStock + deltas[0] < 0 {
        Seqs.SumNonNegative(deltas[1..], (d: int) => -d);
        NegatedSum(deltas[1..]);
      }
    }
  }

  lemma {:induction false} NegatedSum(s: seq<int>)
    ensures Seqs.Sum(s, (d: int) => -d) == -Seqs.Sum(s, (d: int) => d)
  {
    if |s| > 0 {
      NegatedSum(s[1..]);
    }
  }

  /** The clamp is applied at every step, not once at the end: from stock 0,
      a decrement of 5 then a restock of 5 leaves 5, not max(0, 0 - 5 + 5). */
  lemma {:induction false} MixedDeltasNotClampedTotal(item: Item, now: int)
    requires item.currentStock == 0
    ensures ApplyDeltas(item, [-5, 5], now).currentStock == 5
    ensures Total([-5, 5]) == 0
  {
    var down := UpdateStock(item, -5, now);
    assert down.currentStock == 0;
    assert [-5, 5][1..] == [5];
    assert [5][1..] == [];
    assert ApplyDeltas(item, [-5, 5], now) == ApplyDeltas(down, [5], now);
    assert ApplyDeltas(down, [5], now) == ApplyDeltas(UpdateStock(down, 5, now), [], now);
  }

  // ----- The ledger -----

  /** All inventory documents, addressed by (name, category). */
  type Ledger = map<Key, Item>

  /** Every entry sits under its own key. */
  predicate WellKeyed(inv: Ledger)
  {
    forall k | k in inv :: KeyOf(inv[k]) == k
  }

  /** The schema's `unique: true` is on `name` alone: one name, one item,
      whatever the category. */
  predicate UniqueNames(keys: set<Key>)
  {
    forall k1, k2 | k1 in keys && k2 in keys && k1.name == k2.name :: k1 == k2
  }

  predicate ValidLedger(inv: Ledger)
  {
    && WellKeyed(inv)
    && UniqueNames(inv.Keys)
    && forall k | k in inv :: Valid(inv[k])
  }

  /** `findOne({name, category})` followed, when found, by `updateStock`;
      a key with no item is skipped silently. */
  function UpdateIfPresent(inv: Ledger, key: Key, quantity: int, now: int): (r: Ledger)
    ensures r.Keys == inv.Keys
    ensures key in inv ==> r[key] == UpdateStock(inv[key], quantity, now)
    ensures forall k | k in inv && k != key :: r[k] == inv[k]
    ensures key !in inv ==> r == inv
  {
    if key in inv then inv[key := UpdateStock(inv[key], quantity, now)] else inv
  }

  lemma {:induction false} UpdateIfPresentKeepsValid(inv: Ledger, key: Key, quantity: int, now: int)
    requires ValidLedger(inv)
    ensures ValidLedger(UpdateIfPresent(inv, key, quantity, now))
  {
    var r := UpdateIfPresent(inv, key, quantity, now);
    if key in inv {
      UpdateStockKeepsValid(inv[key], quantity, now);
      assert forall k | k in r :: Valid(r[k]) && KeyOf(r[k]) == k by {
        forall k | k in r
          ensures Valid(r[k]) && KeyOf(r[k]) == k
        {
          if k != key {
            assert r[k] == inv[k];
          }
        }
      }
    }
  }

  /** The keys of the available items at or below threshold. */
  function LowStockKeys(inv: Ledger): (r: set<Key>)
    ensures r <= inv.Keys
    ensures forall k :: k in r <==> k in inv && inv[k].isAvailable && IsLowStock(inv[k])
  {
    set k | k in inv && inv[k].isAvailable && IsLowStock(inv[k])
  }

  /** A restock never makes an item low: the low-stock keys can only shrink,
      and the restocked key leaves them once its new stock is above the
      threshold. */
  lemma {:induction false} RestockShrinksLow(inv: Ledger, key: Key, quantity: int, now: int)
    requires quantity >= 0
    ensures LowStockKeys(UpdateIfPresent(inv, key, quantity, now)) <= LowStockKeys(inv)
    ensures key in inv && inv[key].currentStock + quantity > inv[key].threshold ==>
              LowStockKeys(UpdateIfPresent(inv, key, quantity, now)) == LowStockKeys(inv) - {key}
  {
    var after := UpdateIfPresent(inv, key, quantity, now);
    forall k | k in LowStockKeys(after)
      ensures k in LowStockKeys(inv)
    {
      if k == key {
        assert after[k] == UpdateStock(inv[k], quantity, now);
      } else {
        assert after[k] == inv[k];
      }
    }
    if key in inv && inv[key].currentStock + quantity > inv[key].threshold {
      assert key !in LowStockKeys(after) by {
        assert after[key] == UpdateStock(inv[key], quantity, now);
      }
      forall k | k in LowStockKeys(inv) && k != key
        ensures k in LowStockKeys(after)
      {
        assert after[k] == inv[k];
      }
    }
  }

  /** A decrement never clears a low item whose stock is not negative (the
      schema's minimum, so every item of a valid ledger): the low-stock keys
      can only grow. */
  lemma {:induction false} DecrementGrowsLow(inv: Ledger, key: Key, quantity: int, now: int)
    requires quantity <= 0
    requires key in inv ==> inv[key].currentStock >= 0
    ensures LowStockKeys(inv) <= LowStockKeys(UpdateIfPresent(inv, key, quantity, now))
  {
    var after := UpdateIfPresent(inv, key, quantity, now);
    forall k | k in LowStockKeys(inv)
      ensures k in LowStockKeys(after)
    {
      if k == key {
        var item := inv[k];
        assert after[k] == UpdateStock(item, quantity, now);
        assert after[k].currentStock <= item.currentStock;
      } else {
        assert after[k] == inv[k];
      }
    }
  }
}
