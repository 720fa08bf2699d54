/** The build-your-own-pizza screen: the option tables it ships with, the
    running price, the cheese and topping toggles, the stock flags on each
    option and the cart entry it adds. */
module CustomPizza {
  import Seqs
  import Cart

  /** One row of an option table. */
  datatype Choice = Choice(id: string, name: string, price: int, stock: int)

  const BASES: seq<Choice> := [
    Choice("thin", "Thin Crust", 80, 45),
    Choice("regular", "Regular", 60, 15),
    Choice("cheese_burst", "Cheese Burst", 120, 30),
    Choice("stuffed", "Stuffed Crust", 100, 25),
    Choice("gluten_free", "Gluten Free", 150, 20)
  ]

  const SAUCES: seq<Choice> := [
    Choice("tomato", "Tomato", 0, 8),
    Choice("bbq", "BBQ", 20, 12),
    Choice("pesto", "Pesto", 30, 15),
    Choice("white", "White Sauce", 25, 10),
    Choice("buffalo", "Buffalo", 35, 8)
  ]

  const CHEESES: seq<Choice> := [
    Choice("mozz", "Mozzarella", 40, 5),
    Choice("cheddar", "Cheddar", 40, 12),
    Choice("parmesan", "Parmesan", 60, 8),
    Choice("gouda", "Gouda", 50, 6),
    Choice("blue", "Blue Cheese", 70, 4)
  ]

  const TOPPINGS: seq<Choice> := [
    Choice("onion", "Onion", 15, 18),
    Choice("capsicum", "Capsicum", 20, 22),
    Choice("mushroom", "Mushroom", 25, 22),
    Choice("paneer", "Paneer", 30, 15),
    Choice("corn", "Sweet Corn", 20, 25),
    Choice("olives", "Olives", 25, 20),
    Choice("tomatoes", "Fresh Tomatoes", 15, 30),
    Choice("jalapenos", "Jalapeños", 20, 12),
    Choice("pineapple", "Pineapple", 25, 18),
    Choice("chicken", "Grilled Chicken", 40, 10)
  ]

  /** Every pizza starts at this price before any option. */
  const BASE_PRICE: int := 199

  /** What the customer has picked: one base, one sauce, and lists of
      cheeses and toppings in the order they were ticked. */
  datatype Selection = Selection(base: string, sauce: string, cheeses: seq<string>, toppings: seq<string>)

  /** The screen opens on the first base, the first sauce, the first cheese
      and onion with capsicum. */
  const START: Selection := Selection("thin", "tomato", ["mozz"], ["onion", "capsicum"])

  predicate PricesNonNegative(table: seq<Choice>)
  {
    forall i :: 0 <= i < |table| ==> table[i].price >= 0
  }

  predicate Lists(table: seq<Choice>, id: string)
  {
    exists i :: 0 <= i < |table| && table[i].id == id
  }

  /** The price of the first row with `id`; an id the table does not list
      costs nothing. */
  function PriceOf(table: seq<Choice>, id: string): (r: int)
    ensures !Lists(table, id) ==> r == 0
    ensures Lists(table, id) ==> exists i :: 0 <= i < |table| && table[i].id == id && r == table[i].price
    ensures PricesNonNegative(table) ==> r >= 0
  {
    if |table| == 0 then 0
    else if table[0].id == id then table[0].price
    else
      var r := PriceOf(table[1..], id);
      assert forall i :: 1 <= i < |table| ==> table[i] == table[1..][i - 1];
      r
  }

  /** Σ of the prices of `ids`, each looked up in `table`. */
  function Extras(table: seq<Choice>, ids: seq<string>): (r: int)
    ensures PricesNonNegative(table) ==> r >= 0
  {
    if |ids| == 0 then 0 else PriceOf(table, ids[0]) + Extras(table, ids[1..])
  }

  lemma {:induction false} ExtrasAppend(table: seq<Choice>, ids: seq<string>, more: seq<string>)
    ensures Extras(table, ids + more) == Extras(table, ids) + Extras(table, more)
  {
    if |ids| == 0 {
      assert ids + more == more;
    } else {
      assert (ids + more)[1..] == ids[1..] + more;
      ExtrasAppend(table, ids[1..], more);
    }
  }

  /** Every price in the shipped tables is zero or more. */
  lemma {:induction false} TablesNonNegative()
    ensures PricesNonNegative(BASES) && PricesNonNegative(SAUCES)
    ensures PricesNonNegative(CHEESES) && PricesNonNegative(TOPPINGS)
  {
  }

  /** The running price shown on the screen. */
  function Price(sel: Selection): (r: int)
    ensures r >= BASE_PRICE
  {
    TablesNonNegative();
    BASE_PRICE + PriceOf(BASES, sel.base) + PriceOf(SAUCES, sel.sauce)
      + Extras(CHEESES, sel.cheeses) + Extras(TOPPINGS, sel.toppings)
  }

  /** One more id adds its own price to the extras. */
  lemma {:induction false} ExtrasAddOne(table: seq<Choice>, ids: seq<string>, id: string)
    ensures Extras(table, ids + [id]) == Extras(table, ids) + PriceOf(table, id)
  {
    ExtrasAppend(table, ids, [id]);
    assert [id][1..] == [];
  }

  /** Ticking one more topping raises the price by that topping's price,
      so it never lowers it; an unknown id leaves the price as it was. */
  lemma {:induction false} AddToppingPrice(sel: Selection, id: string)
    ensures Price(sel.(toppings := sel.toppings + [id])) == Price(sel) + PriceOf(TOPPINGS, id)
    ensures Price(sel.(toppings := sel.toppings + [id])) >= Price(sel)
    ensures !Lists(TOPPINGS, id) ==> Price(sel.(toppings := sel.toppings + [id])) == Price(sel)
  {
    ExtrasAddOne(TOPPINGS, sel.toppings, id);
    TablesNonNegative();
  }

  /** The same for cheeses. */
  lemma {:induction false} AddCheesePrice(sel: Selection, id: string)
    ensures Price(sel.(cheeses := sel.cheeses + [id])) == Price(sel) + PriceOf(CHEESES, id)
    ensures Price(sel.(cheeses := sel.cheeses + [id])) >= Price(sel)
    ensures !Lists(CHEESES, id) ==> Price(sel.(cheeses := sel.cheeses + [id])) == Price(sel)
  {
    ExtrasAddOne(CHEESES, sel.cheeses, id);
    TablesNonNegative();
  }

  /** The opening price: 199 + 80 (thin) + 0 (tomato) + 40 (mozzarella)
      + 15 (onion) + 20 (capsicum). */
  lemma {:induction false} StartPrice()
    ensures Price(START) == 354
  {
    assert PriceOf(BASES, "thin") == 80;
    assert PriceOf(SAUCES, "tomato") == 0;
    assert Extras(CHEESES, ["mozz"]) == 40;
    assert Extras(TOPPINGS, ["onion", "capsicum"]) == 35;
  }

  // ----- Toggles -----

  /** `ids` without any occurrence of `x`, in order. */
  function Without(ids: seq<string>, x: string): (r: seq<string>)
    ensures x !in r
    ensures forall y :: y in r <==> y in ids && y != x
    ensures |r| <= |ids|
    ensures x !in ids ==> r == ids
  {
    if |ids| == 0 then []
    else if ids[0] == x then Without(ids[1..], x)
    else [ids[0]] + Without(ids[1..], x)
  }

  lemma {:induction false} WithoutKeepsDistinct(ids: seq<string>, x: string)
    requires Seqs.NoDuplicates(ids)
    ensures Seqs.NoDuplicates(Without(ids, x))
  {
    if |ids| > 0 {
      WithoutKeepsDistinct(ids[1..], x);
      var rest := Without(ids[1..], x);
      assert Seqs.NoDuplicates(rest);
      assert ids[0] !in ids[1..];
      if ids[0] != x {
        var r := [ids[0]] + rest;
        forall i, j | 0 <= i < j < |r|
          ensures r[i] != r[j]
        {
          assert r[j] == rest[j - 1] && rest[j - 1] in rest;
          if i == 0 {
            assert r[0] == ids[0];
            assert rest[j - 1] in ids[1..];
            assert r[i] != r[j];
          } else {
            assert r[i] == rest[i - 1];
            assert rest[i - 1] != rest[j - 1];
          }
        }
      }
    }
  }

  /** `toggleCheese` / `toggleTopping`: take the id out when it is there,
      else put it at the end. */
  function Toggle(ids: seq<string>, id: string): (r: seq<string>)
    ensures id in r <==> id !in ids
    ensures forall y | y != id :: y in r <==> y in ids
  {
    if id in ids then Without(ids, id) else ids + [id]
  }

  /** A toggle never puts an id in twice. */
  lemma {:induction false} ToggleKeepsDistinct(ids: seq<string>, id: string)
    requires Seqs.NoDuplicates(ids)
    ensures Seqs.NoDuplicates(Toggle(ids, id))
  {
    if id in ids {
      WithoutKeepsDistinct(ids, id);
      assert Toggle(ids, id) == Without(ids, id);
    } else {
      var r := ids + [id];
      forall i, j | 0 <= i < j < |r|
        ensures r[i] != r[j]
      {
        assert r[i] == ids[i];
      }
    }
  }

  /** Ticking an unticked option and unticking it again restores the list
      exactly; the other way round the same options stay ticked (the id
      may move to the end). */
  lemma {:induction false} ToggleTwice(ids: seq<string>, id: string)
    ensures id !in ids ==> Toggle(Toggle(ids, id), id) == ids
    ensures forall y :: y in Toggle(Toggle(ids, id), id) <==> y in ids
  {
    if id !in ids {
      WithoutAppended(ids, id);
    }
  }

  lemma {:induction false} WithoutAppended(ids: seq<string>, x: string)
    requires x !in ids
    ensures Without(ids + [x], x) == ids
  {
    if |ids| == 0 {
      assert [x][1..] == [];
    } else {
      assert (ids + [x])[1..] == ids[1..] + [x];
      WithoutAppended(ids[1..], x);
    }
  }

  // ----- Stock flags -----

  datatype Section = BaseSection | SauceSection | CheeseSection | ToppingSection

  /** The stock at or below which an option is marked low. */
  function LowThreshold(section: Section): int
  {
    match section
    case BaseSection => 5
    case SauceSection => 3
    case CheeseSection => 2
    case ToppingSection => 5
  }

  /** An option cannot be picked once its stock is gone. */
  predicate Disabled(c: Choice)
  {
    c.stock <= 0
  }

  predicate LowWarning(section: Section, c: Choice)
  {
    c.stock <= LowThreshold(section)
  }

  /** A disabled option always carries the warning too, in every section. */
  lemma {:induction false} DisabledIsWarned(section: Section, c: Choice)
    ensures Disabled(c) ==> LowWarning(section, c)
    ensures LowWarning(section, c) <==> c.stock <= LowThreshold(section)
    ensures LowThreshold(section) >= 2
  {
  }

  /** With the stock figures the screen ships with, nothing is disabled and
      no warning shows: the lowest stock in each table is above its
      threshold. */
  lemma {:induction false} ShippedTablesUnflagged()
    ensures forall i :: 0 <= i < |BASES| ==> !Disabled(BASES[i]) && !LowWarning(BaseSection, BASES[i])
    ensures forall i :: 0 <= i < |SAUCES| ==> !Disabled(SAUCES[i]) && !LowWarning(SauceSection, SAUCES[i])
    ensures forall i :: 0 <= i < |CHEESES| ==> !Disabled(CHEESES[i]) && !LowWarning(CheeseSection, CHEESES[i])
    ensures forall i :: 0 <= i < |TOPPINGS| ==> !Disabled(TOPPINGS[i]) && !LowWarning(ToppingSection, TOPPINGS[i])
  {
  }

  // ----- Into the cart -----

  /** The name of the first row with `id`, if any. */
  function NameOf(table: seq<Choice>, id: string): (r: string)
    ensures !Lists(table, id) ==> r == "undefined"
    ensures Lists(table, id) ==> exists i :: 0 <= i < |table| && table[i].id == id && r == table[i].name
  {
    if |table| == 0 then "undefined"
    else if table[0].id == id then table[0].name
    else
      var r := NameOf(table[1..], id);
      assert forall i :: 1 <= i < |table| ==> table[i] == table[1..][i - 1];
      r
  }

  /** "Custom Pizza (<base name>)"; an unknown base prints as `undefined`. */
  function CartName(sel: Selection): string
  {
    "Custom Pizza (" + NameOf(BASES, sel.base) + ")"
  }

  /** `addToCart`: a product whose id is "custom-" and the click time, named
      after the base and priced at the running price. */
  function AddToCart(items: Cart.Items, sel: Selection, clickTime: string): (r: Cart.Items)
    ensures !Cart.Holds(items, "custom-" + clickTime) ==>
              r == items + [Cart.Entry("custom-" + clickTime, CartName(sel), Price(sel), 1)]
    ensures Cart.ItemCount(r) == Cart.ItemCount(items) + 1
  {
    var p := Cart.Product("custom-" + clickTime, CartName(sel), Price(sel));
    Cart.AddCounts(items, p);
    Cart.Add(items, p)
  }

  /** Two custom pizzas added at the same instant share an id, so the second
      only raises the first one's count and keeps its name and price. */
  lemma {:induction false} SameInstantMerges(sel: Selection, other: Selection, clickTime: string)
    ensures var once := AddToCart([], sel, clickTime);
            AddToCart(once, other, clickTime) ==
              [Cart.Entry("custom-" + clickTime, CartName(sel), Price(sel), 2)]
  {
    var once := AddToCart([], sel, clickTime);
    assert once[0].id == "custom-" + clickTime;
    assert Cart.FindIndex(once, "custom-" + clickTime) == 0;
  }
}
