/** The client's menu screen: the search and category filter over the
    pizzas it lists, and the per-pizza counters it keeps next to the stored
    cart. */
module PizzaMenu {
  import opened Wrappers
  import Seqs
  import Text
  import Cart

  /** A pizza as the menu lists it; ids are keyed by their string form. */
  datatype MenuPizza = MenuPizza(id: string, name: string, description: string, price: int, category: string)

  /** The search box matches either text, without regard to (ASCII) case. */
  predicate Matches(p: MenuPizza, term: string)
  {
    || Text.Contains(Text.ToLower(p.name), Text.ToLower(term))
    || Text.Contains(Text.ToLower(p.description), Text.ToLower(term))
  }

  /** The category menu's catch-all choice. */
  const ALL: string := "all"

  /** The filter effect: the search when the term is non-empty, then the
      category unless "all" is chosen, each keeping the list's order. */
  function Visible(pizzas: seq<MenuPizza>, term: string, category: string): (r: seq<MenuPizza>)
    ensures forall p :: p in r <==>
              p in pizzas && (|term| == 0 || Matches(p, term)) && (category == ALL || p.category == category)
    ensures |r| <= |pizzas|
    ensures Seqs.IsSubsequence(r, pizzas)
  {
    var searched := if |term| > 0 then Seqs.Filter(pizzas, (p: MenuPizza) => Matches(p, term)) else pizzas;
    Seqs.SubsequenceRefl(pizzas);
    var r := if category != ALL then Seqs.Filter(searched, (p: MenuPizza) => p.category == category) else searched;
    Seqs.SubsequenceRefl(searched);
    Seqs.SubsequenceTrans(r, searched, pizzas);
    r
  }

  /** With no search term and "all" chosen the whole menu shows. */
  lemma {:induction false} NoFilterShowsAll(pizzas: seq<MenuPizza>)
    ensures Visible(pizzas, "", ALL) == pizzas
  {
  }

  /** Case does not matter to the search: a term and its lower-cased form
      show the same pizzas. */
  lemma {:induction false} SearchIgnoresCase(pizzas: seq<MenuPizza>, term: string, category: string)
    ensures forall p :: p in Visible(pizzas, term, category) <==> p in Visible(pizzas, Text.ToLower(term), category)
  {
    LowerIdempotent(term);
  }

  lemma {:induction false} LowerIdempotent(s: string)
    ensures Text.ToLower(Text.ToLower(s)) == Text.ToLower(s)
  {
  }

  // ----- The menu's own counters -----

  /** Pizza id to how many of it the menu shows as in the cart. */
  type Counters = map<string, int>

  /** Filled from the stored cart on opening: each entry's count under its
      id, a later entry overwriting an earlier one. */
  function Hydrate(items: Cart.Items): Counters
  {
    if |items| == 0 then map[]
    else Hydrate(items[..|items| - 1])[items[|items| - 1].id := items[|items| - 1].count]
  }

  /** One more: from a default of 0. */
  function Increment(m: Counters, id: string): (r: Counters)
    ensures r.Keys == m.Keys + {id}
    ensures r[id] == (if id in m then m[id] else 0) + 1
    ensures forall k | k in m && k != id :: r[k] == m[k]
  {
    m[id := (if id in m then m[id] else 0) + 1]
  }

  /** One fewer: a count above 1 goes down, anything else is deleted. */
  function Decrement(m: Counters, id: string): (r: Counters)
    ensures id in m && m[id] > 1 ==> r.Keys == m.Keys && r[id] == m[id] - 1
    ensures !(id in m && m[id] > 1) ==> r.Keys == m.Keys - {id}
    ensures forall k | k in r && k != id :: r[k] == m[k]
  {
    if id in m && m[id] > 1 then m[id := m[id] - 1] else m - {id}
  }

  /** Σ of the counters under `keys`. */
  ghost function SumOver(m: Counters, keys: set<string>): int
    requires keys <= m.Keys
    decreases keys
  {
    if keys == {} then 0
    else var k :| k in keys; m[k] + SumOver(m, keys - {k})
  }

  /** The cart badge: Σ of all the counters. */
  ghost function Displayed(m: Counters): int
  {
    SumOver(m, m.Keys)
  }

  /** The sum may start from any key. */
  lemma {:induction false} SumOverPick(m: Counters, keys: set<string>, k: string)
    requires keys <= m.Keys && k in keys
    ensures SumOver(m, keys) == m[k] + SumOver(m, keys - {k})
    decreases keys
  {
    var j :| j in keys && SumOver(m, keys) == m[j] + SumOver(m, keys - {j});
    if j != k {
      SumOverPick(m, keys - {j}, k);
      SumOverPick(m, keys - {k}, j);
      assert keys - {j} - {k} == keys - {k} - {j};
    }
  }

  /** Only the counters under `keys` matter to their sum. */
  lemma {:induction false} SumOverFrame(m: Counters, n: Counters, keys: set<string>)
    requires keys <= m.Keys && keys <= n.Keys
    requires forall k | k in keys :: m[k] == n[k]
    ensures SumOver(m, keys) == SumOver(n, keys)
    decreases keys
  {
    if keys != {} {
      var j :| j in keys && SumOver(m, keys) == m[j] + SumOver(m, keys - {j});
      SumOverPick(n, keys, j);
      SumOverFrame(m, n, keys - {j});
    }
  }

  /** Setting one counter changes the badge by the difference. */
  lemma {:induction false} DisplayedSet(m: Counters, id: string, v: int)
    ensures Displayed(m[id := v]) == Displayed(m) - (if id in m then m[id] else 0) + v
  {
    var r := m[id := v];
    SumOverPick(r, r.Keys, id);
    assert r.Keys - {id} == m.Keys - {id};
    SumOverFrame(r, m, m.Keys - {id});
    if id in m {
      SumOverPick(m, m.Keys, id);
    } else {
      assert m.Keys - {id} == m.Keys;
    }
  }

  /** Dropping one counter takes it out of the badge. */
  lemma {:induction false} DisplayedDrop(m: Counters, id: string)
    ensures Displayed(m - {id}) == Displayed(m) - if id in m then m[id] else 0
  {
    var r := m - {id};
    if id in m {
      SumOverPick(m, m.Keys, id);
      assert r.Keys == m.Keys - {id};
      SumOverFrame(r, m, r.Keys);
    } else {
      assert r == m;
    }
  }

  /** An increment raises the badge by one. */
  lemma {:induction false} IncrementDisplayed(m: Counters, id: string)
    ensures Displayed(Increment(m, id)) == Displayed(m) + 1
  {
    DisplayedSet(m, id, (if id in m then m[id] else 0) + 1);
  }

  /** With counters of at least 1, a decrement lowers the badge by one when
      the id is there and leaves it alone otherwise. */
  lemma {:induction false} DecrementDisplayed(m: Counters, id: string)
    requires forall k | k in m :: m[k] >= 1
    ensures Displayed(Decrement(m, id)) == Displayed(m) - if id in m then 1 else 0
  {
    if id in m && m[id] > 1 {
      DisplayedSet(m, id, m[id] - 1);
    } else {
      DisplayedDrop(m, id);
    }
  }

  // ----- Counters and the stored cart in step -----

  /** A counter exists exactly for an id the cart holds. */
  lemma {:induction false} HydrateHas(items: Cart.Items, k: string)
    ensures k in Hydrate(items) <==> Cart.Holds(items, k)
  {
    if |items| > 0 {
      var n := |items| - 1;
      var front := items[..n];
      HydrateHas(front, k);
      if Cart.Holds(items, k) && k != items[n].id {
        var i :| 0 <= i < |items| && items[i].id == k;
        assert front[i].id == k;
      }
      if Cart.Holds(front, k) {
        var i :| 0 <= i < |front| && front[i].id == k;
        assert items[i].id == k;
      }
    }
  }

  /** No other entry has the id of entry `i`. */
  predicate UniqueAt(items: Cart.Items, i: nat)
    requires i < |items|
  {
    forall j | 0 <= j < |items| && j != i :: items[j].id != items[i].id
  }

  lemma {:induction false} ValidUniqueAt(items: Cart.Items, i: nat)
    requires Cart.Valid(items) && i < |items|
    ensures UniqueAt(items, i)
  {
  }

  /** Entry `i` stays unique once the last entry is dropped. */
  lemma {:induction false} FrontUniqueAt(items: Cart.Items, i: nat)
    requires i < |items| - 1 && UniqueAt(items, i)
    ensures UniqueAt(items[..|items| - 1], i) && items[|items| - 1].id != items[i].id
  {
    var front := items[..|items| - 1];
    assert forall j | 0 <= j < |front| :: front[j] == items[j];
  }

  /** When no other entry has its id, an entry's counter is its count. */
  lemma {:induction false} HydrateAt(items: Cart.Items, i: nat)
    requires i < |items| && UniqueAt(items, i)
    ensures items[i].id in Hydrate(items) && Hydrate(items)[items[i].id] == items[i].count
  {
    var n := |items| - 1;
    if i < n {
      FrontUniqueAt(items, i);
      HydrateAt(items[..n], i);
      assert items[..n][i] == items[i];
    }
  }

  /** On a valid cart the counters hold exactly the cart's ids, each with
      its count. */
  lemma {:induction false} HydrateExact(items: Cart.Items)
    requires Cart.Valid(items)
    ensures forall k :: k in Hydrate(items) <==> Cart.Holds(items, k)
    ensures forall i | 0 <= i < |items| :: items[i].id in Hydrate(items) && Hydrate(items)[items[i].id] == items[i].count
  {
    forall k
      ensures k in Hydrate(items) <==> Cart.Holds(items, k)
    {
      HydrateHas(items, k);
    }
    forall i | 0 <= i < |items|
      ensures items[i].id in Hydrate(items) && Hydrate(items)[items[i].id] == items[i].count
    {
      ValidUniqueAt(items, i);
      HydrateAt(items, i);
    }
  }

  lemma {:induction false} FrontValid(items: Cart.Items)
    requires Cart.Valid(items) && |items| > 0
    ensures Cart.Valid(items[..|items| - 1])
  {
    var front := items[..|items| - 1];
    assert forall i | 0 <= i < |front| :: front[i] == items[i];
  }

  /** Two updates under different keys commute. */
  lemma {:induction false} UpdatesCommute(m: Counters, a: string, x: int, b: string, y: int)
    requires a != b
    ensures m[a := x][b := y] == m[b := y][a := x]
  {
  }

  /** A new count for an entry no other entry shares the id of is a new
      value for its counter. */
  lemma {:induction false} HydrateUpdate(items: Cart.Items, i: nat, c: int)
    requires i < |items| && UniqueAt(items, i)
    ensures Hydrate(items[i := items[i].(count := c)]) == Hydrate(items)[items[i].id := c]
  {
    var n := |items| - 1;
    var changed := items[i := items[i].(count := c)];
    var front := items[..n];
    if i == n {
      assert changed[..n] == front;
    } else {
      FrontUniqueAt(items, i);
      assert front[i] == items[i];
      assert changed[..n] == front[i := front[i].(count := c)];
      assert changed[n] == items[n];
      HydrateUpdate(front, i, c);
      var m := Hydrate(front);
      var last := items[n];
      assert Hydrate(changed) == m[items[i].id := c][last.id := last.count];
      UpdatesCommute(m, items[i].id, c, last.id, last.count);
    }
  }

  /** On a valid cart the last entry's id has no counter yet before it. */
  lemma {:induction false} LastIdFresh(items: Cart.Items)
    requires Cart.Valid(items) && |items| > 0
    ensures items[|items| - 1].id !in Hydrate(items[..|items| - 1])
  {
    var n := |items| - 1;
    var front := items[..n];
    HydrateHas(front, items[n].id);
    forall i | 0 <= i < |front|
      ensures front[i].id != items[n].id
    {
      assert front[i] == items[i];
    }
  }

  /** Dropping entry `i` of a list and then its last entry is dropping the
      last entry and then entry `i`. */
  lemma {:induction false} DropThenFront(items: Cart.Items, i: nat)
    requires i < |items| - 1
    ensures var n := |items| - 1; var rest := items[..i] + items[i + 1..];
            && |rest| == n && rest[n - 1] == items[n]
            && rest[..n - 1] == items[..n][..i] + items[..n][i + 1..]
  {
  }

  /** Deleting an entry no other entry shares the id of deletes its
      counter. */
  lemma {:induction false} HydrateDelete(items: Cart.Items, i: nat)
    requires i < |items| && UniqueAt(items, i)
    ensures Hydrate(items[..i] + items[i + 1..]) == Hydrate(items) - {items[i].id}
  {
    var n := |items| - 1;
    var front := items[..n];
    var id := items[i].id;
    if i == n {
      assert items[..i] + items[i + 1..] == front;
      assert id !in Hydrate(front) by {
        HydrateHas(front, id);
        forall j | 0 <= j < |front|
          ensures front[j].id != id
        {
          assert front[j] == items[j];
        }
      }
    } else {
      var rest := items[..i] + items[i + 1..];
      var last := items[n];
      var m := Hydrate(front);
      assert last.id != id && Hydrate(front[..i] + front[i + 1..]) == m - {id} by {
        FrontUniqueAt(items, i);
        HydrateDelete(front, i);
        assert front[i] == items[i];
      }
      assert Hydrate(rest) == (m - {id})[last.id := last.count] by {
        DropThenFront(items, i);
      }
      assert (m - {id})[last.id := last.count] == m[last.id := last.count] - {id};
    }
  }

  /** On a valid cart the badge and the stored cart's item count agree. */
  lemma {:induction false} HydrateCount(items: Cart.Items)
    requires Cart.Valid(items)
    ensures Displayed(Hydrate(items)) == Cart.ItemCount(items)
  {
    if |items| > 0 {
      var n := |items| - 1;
      var front := items[..n];
      FrontValid(items);
      HydrateCount(front);
      LastIdFresh(items);
      DisplayedSet(Hydrate(front), items[n].id, items[n].count);
      assert items == front + [items[n]];
      Seqs.SumAppend(front, [items[n]], Cart.CountOf);
      Seqs.SumSingleton(items[n], Cart.CountOf);
    }
  }

  /** Adding from the menu changes the counters exactly as re-reading the
      changed cart would. */
  lemma {:induction false} IncrementInStep(items: Cart.Items, p: Cart.Product)
    requires Cart.Valid(items)
    ensures Hydrate(Cart.Add(items, p)) == Increment(Hydrate(items), p.id)
  {
    var i := Cart.FindIndex(items, p.id);
    if i >= 0 {
      ValidUniqueAt(items, i);
      IncrementFound(items, p, i);
    } else {
      IncrementFresh(items, p);
    }
  }

  /** Adding one more of an entry raises its counter. */
  lemma {:induction false} IncrementFound(items: Cart.Items, p: Cart.Product, i: nat)
    requires i < |items| && UniqueAt(items, i) && i == Cart.FindIndex(items, p.id)
    ensures Hydrate(Cart.Add(items, p)) == Increment(Hydrate(items), p.id)
  {
    var c := items[i].count + 1;
    var changed := items[i := items[i].(count := c)];
    assert Cart.Holds(items, p.id) by {
      assert items[i].id == p.id;
    }
    assert Cart.Add(items, p) == changed;
    assert Hydrate(changed) == Hydrate(items)[p.id := c] by {
      HydrateUpdate(items, i, c);
    }
    assert Increment(Hydrate(items), p.id) == Hydrate(items)[p.id := c] by {
      HydrateAt(items, i);
    }
  }

  /** Adding a product the cart does not hold starts its counter at 1. */
  lemma {:induction false} IncrementFresh(items: Cart.Items, p: Cart.Product)
    requires !Cart.Holds(items, p.id)
    ensures Hydrate(Cart.Add(items, p)) == Increment(Hydrate(items), p.id)
  {
    var e := Cart.Entry(p.id, p.name, p.price, 1);
    assert Cart.Add(items, p) == items + [e];
    assert Hydrate(items + [e]) == Hydrate(items)[p.id := 1] by {
      assert (items + [e])[..|items|] == items;
    }
    assert Increment(Hydrate(items), p.id) == Hydrate(items)[p.id := 1] by {
      HydrateHas(items, p.id);
    }
  }

  /** Removing one of an entry counted above 1 lowers its counter. */
  lemma {:induction false} DecrementLowers(items: Cart.Items, i: nat)
    requires i < |items| && UniqueAt(items, i) && items[i].count > 1
    requires i == Cart.FindIndex(items, items[i].id)
    ensures Hydrate(Cart.Remove(items, items[i].id)) == Decrement(Hydrate(items), items[i].id)
  {
    var id := items[i].id;
    var c := items[i].count - 1;
    var changed := items[i := items[i].(count := c)];
    assert Cart.Remove(items, id) == changed;
    assert Hydrate(changed) == Hydrate(items)[id := c] by {
      HydrateUpdate(items, i, c);
    }
    assert Decrement(Hydrate(items), id) == Hydrate(items)[id := c] by {
      HydrateAt(items, i);
    }
  }

  /** Removing the last one of an entry deletes its counter. */
  lemma {:induction false} DecrementDeletes(items: Cart.Items, i: nat)
    requires i < |items| && UniqueAt(items, i) && items[i].count <= 1
    requires i == Cart.FindIndex(items, items[i].id)
    ensures Hydrate(Cart.Remove(items, items[i].id)) == Decrement(Hydrate(items), items[i].id)
  {
    var id := items[i].id;
    HydrateAt(items, i);
    assert Cart.Remove(items, id) == items[..i] + items[i + 1..];
    HydrateDelete(items, i);
    assert Decrement(Hydrate(items), id) == Hydrate(items) - {id};
  }

  /** Removing from the menu likewise. */
  lemma {:induction false} DecrementInStep(items: Cart.Items, id: string)
    requires Cart.Valid(items)
    ensures Hydrate(Cart.Remove(items, id)) == Decrement(Hydrate(items), id)
  {
    var i := Cart.FindIndex(items, id);
    if i >= 0 {
      ValidUniqueAt(items, i);
      if items[i].count > 1 {
        DecrementLowers(items, i);
      } else {
        DecrementDeletes(items, i);
      }
    } else {
      HydrateHas(items, id);
      assert Cart.Remove(items, id) == items;
      assert Hydrate(items) - {id} == Hydrate(items);
    }
  }

  /** The menu's add button: `None` for an id the menu does not list (the
      handler would fail before changing anything); otherwise the cart with
      one more of the pizza at its menu price, and the counters. */
  function AddFromMenu(pizzas: seq<MenuPizza>, items: Cart.Items, m: Counters, id: string)
    : (r: Option<(Cart.Items, Counters)>)
    ensures r.None? <==> forall p | p in pizzas :: p.id != id
    ensures r.Some? ==> r.value.1 == Increment(m, id) && Cart.ItemCount(r.value.0) == Cart.ItemCount(items) + 1
  {
    var found := Seqs.Filter(pizzas, (p: MenuPizza) => p.id == id);
    if |found| == 0 then None
    else
      var pizza := found[0];
      assert pizza in found;
      var product := Cart.Product(pizza.id, pizza.name, pizza.price);
      Cart.AddCounts(items, product);
      Some((Cart.Add(items, product), Increment(m, id)))
  }

  /** Whatever the menu's buttons do, counters that started in step with
      a valid stored cart stay in step with it. */
  lemma {:induction false} ButtonsKeepStep(pizzas: seq<MenuPizza>, items: Cart.Items, id: string)
    requires Cart.Valid(items)
    ensures var r := AddFromMenu(pizzas, items, Hydrate(items), id);
            r.Some? ==> r.value.1 == Hydrate(r.value.0)
    ensures Decrement(Hydrate(items), id) == Hydrate(Cart.Remove(items, id))
  {
    var found := Seqs.Filter(pizzas, (p: MenuPizza) => p.id == id);
    if |found| > 0 {
      assert found[0] in found;
      IncrementInStep(items, Cart.Product(found[0].id, found[0].name, found[0].price));
    }
    DecrementInStep(items, id);
  }
}
