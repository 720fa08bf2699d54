/** The client's shopping cart, kept in local storage: one entry per
    product id, carrying the price the product had when it was first added
    and how many of it are in the cart. */
module Cart {
  import Seqs

  /** What the menu and the custom-pizza builder hand to the cart. */
  datatype Product = Product(id: string, name: string, price: int)

  datatype Entry = Entry(id: string, name: string, price: int, count: int)

  type Items = seq<Entry>

  /** The storage slot: empty, text that does not parse as a list, or a
      saved list. */
  datatype Stored = Missing | Unparsable | Saved(items: Items)

  /** Reading the slot; anything but a saved list reads as the empty cart. */
  function Load(stored: Stored): Items
  {
    match stored
    case Saved(items) => items
    case _ => []
  }

  /** A cart as the operations keep it: no id twice and no count below one. */
  predicate Valid(items: Items)
  {
    && (forall i, j :: 0 <= i < j < |items| ==> items[i].id != items[j].id)
    && (forall i :: 0 <= i < |items| ==> items[i].count >= 1)
  }

  predicate Holds(items: Items, id: string)
  {
    exists i :: 0 <= i < |items| && items[i].id == id
  }

  /** The position of the first entry with `id`, or -1. */
  function FindIndex(items: Items, id: string): (r: int)
    ensures -1 <= r < |items|
    ensures r == -1 <==> !Holds(items, id)
    ensures r >= 0 ==> items[r].id == id && forall j :: 0 <= j < r ==> items[j].id != id
  {
    if |items| == 0 then -1
    else if items[0].id == id then 0
    else
      var k := FindIndex(items[1..], id);
      assert forall j :: 1 <= j < |items| ==> items[j] == items[1..][j - 1];
      if k < 0 then -1 else k + 1
  }

  /** `addItemToCart`: one more of a product already in the cart (its
      stored price and name are kept), or a new entry with count 1 at the
      end. */
  function Add(items: Items, p: Product): (r: Items)
    ensures Holds(items, p.id) ==>
              var i := FindIndex(items, p.id);
              |r| == |items| && r[i] == items[i].(count := items[i].count + 1)
              && forall j :: 0 <= j < |r| && j != i ==> r[j] == items[j]
    ensures !Holds(items, p.id) ==> r == items + [Entry(p.id, p.name, p.price, 1)]
  {
    var i := FindIndex(items, p.id);
    if i >= 0 then items[i := items[i].(count := items[i].count + 1)]
    else items + [Entry(p.id, p.name, p.price, 1)]
  }

  /** `removeItemFromCart`: one fewer of a product, dropping its entry when
      the last one goes; an id not in the cart changes nothing. */
  function Remove(items: Items, id: string): (r: Items)
    ensures !Holds(items, id) ==> r == items
    ensures Holds(items, id) && items[FindIndex(items, id)].count > 1 ==>
              var i := FindIndex(items, id);
              |r| == |items| && r[i] == items[i].(count := items[i].count - 1)
              && forall j :: 0 <= j < |r| && j != i ==> r[j] == items[j]
    ensures Holds(items, id) && items[FindIndex(items, id)].count <= 1 ==>
              var i := FindIndex(items, id);
              |r| == |items| - 1 && r == items[..i] + items[i + 1..]
  {
    var i := FindIndex(items, id);
    if i < 0 then items
    else if items[i].count > 1 then items[i := items[i].(count := items[i].count - 1)]
    else items[..i] + items[i + 1..]
  }

  /** `clearCart`: the slot holds the empty list. */
  function Clear(): (r: Stored)
    ensures Load(r) == [] && ItemCount(Load(r)) == 0 && Total(Load(r)) == 0
  {
    Saved([])
  }

  /** The storage-level operations: read, change, write back. */
  function AddToStorage(stored: Stored, p: Product): Stored
  {
    Saved(Add(Load(stored), p))
  }

  function RemoveFromStorage(stored: Stored, id: string): Stored
  {
    Saved(Remove(Load(stored), id))
  }

  function CountOf(e: Entry): int { e.count }

  function LineTotal(e: Entry): int { e.price * e.count }

  /** `cartItemCount`: Σ count. */
  function ItemCount(items: Items): int
  {
    Seqs.Sum(items, CountOf)
  }

  /** `cartTotal`: Σ price × count. */
  function Total(items: Items): int
  {
    Seqs.Sum(items, LineTotal)
  }

  // ----- Properties -----

  /** A slot that does not parse behaves as an empty cart: adding to it
      gives a cart holding just the new product. */
  lemma {:induction false} UnparsableReadsEmpty(p: Product)
    ensures Load(AddToStorage(Unparsable, p)) == [Entry(p.id, p.name, p.price, 1)]
    ensures Load(AddToStorage(Missing, p)) == [Entry(p.id, p.name, p.price, 1)]
  {
  }

  /** Two carts with the same ids position by position agree on where an
      id is. */
  lemma {:induction false} FindIndexByIds(a: Items, b: Items, id: string)
    requires |a| == |b|
    requires forall j :: 0 <= j < |a| ==> a[j].id == b[j].id
    ensures FindIndex(a, id) == FindIndex(b, id)
  {
  }

  lemma {:induction false} AddKeepsValid(items: Items, p: Product)
    requires Valid(items)
    ensures Valid(Add(items, p))
  {
  }

  lemma {:induction false} RemoveKeepsValid(items: Items, id: string)
    requires Valid(items)
    ensures Valid(Remove(items, id))
  {
    var i := FindIndex(items, id);
    if i >= 0 && items[i].count <= 1 {
      DropKeepsValid(items, i);
    }
  }

  /** Dropping one line of a valid cart leaves a valid cart. */
  lemma {:induction false} DropKeepsValid(items: Items, i: nat)
    requires Valid(items) && i < |items|
    ensures Valid(items[..i] + items[i + 1..])
  {
    var r := items[..i] + items[i + 1..];
    forall a, b | 0 <= a < b < |r|
      ensures r[a].id != r[b].id
    {
      var a', b' := if a < i then a else a + 1, if b < i then b else b + 1;
      assert r[a] == items[a'] && r[b] == items[b'];
    }
    forall a | 0 <= a < |r|
      ensures r[a].count >= 1
    {
      assert r[a] == items[if a < i then a else a + 1];
    }
  }

  /** Removing a product right after adding it restores the cart exactly. */
  lemma {:induction false} RemoveAfterAdd(items: Items, p: Product)
    requires Valid(items)
    ensures Remove(Add(items, p), p.id) == items
  {
    var i := FindIndex(items, p.id);
    if i >= 0 {
      assert items[i].count >= 1;
      RemoveAfterAddHeld(items, p, i);
    } else {
      RemoveAfterAddNew(items, p);
    }
  }

  /** The product was in the cart: its count goes up and back down. */
  lemma {:induction false} RemoveAfterAddHeld(items: Items, p: Product, i: nat)
    requires i < |items| && i == FindIndex(items, p.id) && items[i].count >= 1
    ensures Remove(Add(items, p), p.id) == items
  {
    var a := items[i := items[i].(count := items[i].count + 1)];
    assert Holds(items, p.id) by {
      assert items[i].id == p.id;
    }
    assert Add(items, p) == a;
    assert FindIndex(a, p.id) == i by {
      FindIndexByIds(a, items, p.id);
    }
    assert a[i].count > 1 && a[i].(count := a[i].count - 1) == items[i];
    assert Remove(a, p.id) == a[i := items[i]];
    assert a[i := items[i]] == items;
  }

  /** The product was not in the cart: its new entry comes and goes. */
  lemma {:induction false} RemoveAfterAddNew(items: Items, p: Product)
    requires !Holds(items, p.id)
    ensures Remove(Add(items, p), p.id) == items
  {
    var n := |items|;
    var a := items + [Entry(p.id, p.name, p.price, 1)];
    assert Add(items, p) == a;
    assert FindIndex(a, p.id) == n by {
      assert a[n].id == p.id;
      assert forall j :: 0 <= j < n ==> a[j] == items[j];
    }
    assert a[..n] + a[n + 1..] == items;
  }

  /** One more or one fewer of an entry moves its line total by its price. */
  lemma {:induction false} LineTotalStep(e: Entry, d: int)
    ensures LineTotal(e.(count := e.count + d)) == LineTotal(e) + d * e.price
  {
  }

  /** Adding always puts exactly one more item in the cart, and raises the
      total by the price stored for that product: the price the cart
      already holds, not the one handed in. */
  lemma {:induction false} AddCounts(items: Items, p: Product)
    ensures ItemCount(Add(items, p)) == ItemCount(items) + 1
    ensures Total(Add(items, p)) ==
              Total(items) + if Holds(items, p.id) then items[FindIndex(items, p.id)].price else p.price
  {
    var i := FindIndex(items, p.id);
    if i >= 0 {
      var e := items[i].(count := items[i].count + 1);
      assert Add(items, p) == items[i := e];
      Seqs.SumUpdate(items, i, e, CountOf);
      Seqs.SumUpdate(items, i, e, LineTotal);
      LineTotalStep(items[i], 1);
    } else {
      var e := Entry(p.id, p.name, p.price, 1);
      assert Add(items, p) == items + [e];
      Seqs.SumSingleton(e, CountOf);
      Seqs.SumSingleton(e, LineTotal);
      Seqs.SumAppend(items, [e], CountOf);
      Seqs.SumAppend(items, [e], LineTotal);
    }
  }

  /** On a valid cart, removing a product it holds takes exactly one item
      out and lowers the total by that product's stored price; removing an
      absent id changes neither. */
  lemma {:induction false} RemoveCounts(items: Items, id: string)
    requires Valid(items)
    ensures Holds(items, id) ==>
              && ItemCount(Remove(items, id)) == ItemCount(items) - 1
              && Total(Remove(items, id)) == Total(items) - items[FindIndex(items, id)].price
    ensures !Holds(items, id) ==>
              ItemCount(Remove(items, id)) == ItemCount(items) && Total(Remove(items, id)) == Total(items)
  {
    var i := FindIndex(items, id);
    if i >= 0 {
      assert items[i].count >= 1;
      RemoveOneCounts(items, id, i);
    }
  }

  /** Taking one of entry `i` out, whether or not the entry goes with it. */
  lemma {:induction false} RemoveOneCounts(items: Items, id: string, i: nat)
    requires i < |items| && i == FindIndex(items, id) && items[i].count >= 1
    ensures ItemCount(Remove(items, id)) == ItemCount(items) - 1
    ensures Total(Remove(items, id)) == Total(items) - items[i].price
  {
    if items[i].count > 1 {
      var e := items[i].(count := items[i].count - 1);
      assert Remove(items, id) == items[i := e];
      Seqs.SumUpdate(items, i, e, CountOf);
      Seqs.SumUpdate(items, i, e, LineTotal);
      LineTotalStep(items[i], -1);
    } else {
      assert Remove(items, id) == items[..i] + items[i + 1..];
      Seqs.SumDelete(items, i, CountOf);
      Seqs.SumDelete(items, i, LineTotal);
    }
  }
}
