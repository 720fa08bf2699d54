/** The start-up seeding of the server: the admin account, the pizza menu
    and the inventory, each inserted only when absent. The first failing
    insert ends the run; the error is logged and never reaches the caller,
    so the result is simply the store as the run left it. */
module Seeder {
  import opened Wrappers
  import Text
  import Seqs
  import opened Inventory
  import Catalog
  import Auth

  // ----- The admin account -----

  const ADMIN_EMAIL: string := "admin@pizzadelivery.com"

  /** The seeded admin; the hashed password and the address are given, as
      hashing is not modelled and addresses are kept as opaque text. */
  function AdminAccount(id: Auth.UserId, passwordHash: string, address: string): (u: Auth.User)
    ensures u.email == ADMIN_EMAIL && u.role == Auth.ADMIN_ROLE && u.isEmailVerified
  {
    Auth.User(id, "Admin User", ADMIN_EMAIL, "9876543210", address, Auth.ADMIN_ROLE, passwordHash, true)
  }

  predicate HasEmail(users: Auth.Users, email: string)
  {
    exists id | id in users :: users[id].email == email
  }

  /** The admin is created only when no user has its e-mail. Creating a
      document always gives it a new id, so an insert never replaces an
      existing user: the id is required to be fresh whenever one happens. */
  function SeedAdmin(users: Auth.Users, admin: Auth.User): (r: Auth.Users)
    requires !HasEmail(users, admin.email) ==> admin.id !in users
    ensures HasEmail(users, admin.email) ==> r == users
    ensures !HasEmail(users, admin.email) ==> r == users[admin.id := admin]
    ensures r.Keys == users.Keys + (if HasEmail(users, admin.email) then {} else {admin.id})
    ensures forall id | id in users :: id in r && r[id] == users[id]
    ensures HasEmail(r, admin.email)
  {
    if HasEmail(users, admin.email) then users
    else
      assert users[admin.id := admin][admin.id].email == admin.email;
      users[admin.id := admin]
  }

  lemma {:induction false} SeedAdminIdempotent(users: Auth.Users, admin: Auth.User)
    requires !HasEmail(users, admin.email) ==> admin.id !in users
    ensures SeedAdmin(SeedAdmin(users, admin), admin) == SeedAdmin(users, admin)
  {
  }

  // ----- Insert-if-absent runs -----

  /** Where a seeding loop stopped: the store it left and whether it got
      through every entry. */
  datatype Stage<T> = Stage(store: T, completed: bool)

  predicate HasPizzaNamed(docs: seq<Catalog.Pizza>, name: string)
  {
    exists i :: 0 <= i < |docs| && docs[i].name == name
  }

  /** `findOne({ name })`, then `create` when absent; a document the schema
      rejects ends the run. */
  function SeedPizzas(docs: seq<Catalog.Pizza>, seeds: seq<Catalog.Pizza>): (r: Stage<seq<Catalog.Pizza>>)
    ensures |docs| <= |r.store| && r.store[..|docs|] == docs
    ensures forall i :: |docs| <= i < |r.store| ==> r.store[i] in seeds && Catalog.Valid(r.store[i])
    ensures r.completed ==> forall p | p in seeds :: HasPizzaNamed(r.store, p.name)
    decreases |seeds|
  {
    if |seeds| == 0 then Stage(docs, true)
    else if HasPizzaNamed(docs, seeds[0].name) then
      var r := SeedPizzas(docs, seeds[1..]);
      PizzaNameKept(docs, r.store, seeds[0].name);
      TailSeedsCovered(seeds, r);
      r
    else if !Catalog.Valid(seeds[0]) then Stage(docs, false)
    else
      var next := docs + [seeds[0]];
      var r := SeedPizzas(next, seeds[1..]);
      assert r.store[..|docs|] == docs by {
        assert r.store[..|docs|] == r.store[..|next|][..|docs|];
        assert next[..|docs|] == docs;
      }
      assert r.store[|docs|] == seeds[0] by {
        assert r.store[..|next|][|docs|] == r.store[|docs|];
      }
      assert HasPizzaNamed(r.store, seeds[0].name) by {
        assert r.store[|docs|].name == seeds[0].name;
      }
      TailSeedsCovered(seeds, r);
      r
  }

  /** The recursive step of `SeedPizzas`: what the run over `seeds[1..]`
      established, restated over `seeds`. */
  lemma {:induction false} TailSeedsCovered(seeds: seq<Catalog.Pizza>, r: Stage<seq<Catalog.Pizza>>)
    requires |seeds| > 0
    requires r.completed ==> forall p | p in seeds[1..] :: HasPizzaNamed(r.store, p.name)
    requires HasPizzaNamed(r.store, seeds[0].name)
    ensures r.completed ==> forall p | p in seeds :: HasPizzaNamed(r.store, p.name)
    ensures forall p | p in seeds[1..] :: p in seeds
  {
    if r.completed {
      forall p | p in seeds
        ensures HasPizzaNamed(r.store, p.name)
      {
        if p != seeds[0] {
          var i :| 0 <= i < |seeds| && seeds[i] == p;
          assert seeds[1..][i - 1] == p;
        }
      }
    }
  }

  /** A pizza seeding run finds every pizza it inserted the second time and
      stops at the same place: seeding twice is seeding once. */
  lemma {:induction false} SeedPizzasIdempotent(docs: seq<Catalog.Pizza>, seeds: seq<Catalog.Pizza>)
    ensures var once := SeedPizzas(docs, seeds);
            SeedPizzas(once.store, seeds) == Stage(once.store, once.completed)
    decreases |seeds|
  {
    var once := SeedPizzas(docs, seeds);
    if |seeds| > 0 {
      if HasPizzaNamed(docs, seeds[0].name) {
        SeedPizzasIdempotent(docs, seeds[1..]);
        PizzaNameKept(docs, once.store, seeds[0].name);
      } else if !Catalog.Valid(seeds[0]) {
      } else {
        var next := docs + [seeds[0]];
        SeedPizzasIdempotent(next, seeds[1..]);
        assert next[|docs|].name == seeds[0].name;
        PizzaNameKept(next, once.store, seeds[0].name);
      }
    }
  }

  lemma {:induction false} PizzaNameKept(docs: seq<Catalog.Pizza>, store: seq<Catalog.Pizza>, name: string)
    requires |docs| <= |store| && store[..|docs|] == docs
    requires HasPizzaNamed(docs, name)
    ensures HasPizzaNamed(store, name)
  {
    var i :| 0 <= i < |docs| && docs[i].name == name;
    assert store[i] == store[..|docs|][i];
  }

  predicate NameTaken(inv: Ledger, name: string)
  {
    exists k | k in inv :: k.name == name
  }

  /** `findOne({ name, category })`, then `create` when absent. The unique
      index is on the name alone, so an item whose name is stored under
      another category makes `create` throw; so does one the schema
      rejects. Either ends the run. */
  function SeedInventory(inv: Ledger, seeds: seq<Item>): (r: Stage<Ledger>)
    ensures forall k | k in inv :: k in r.store && r.store[k] == inv[k]
    ensures forall k | k in r.store && k !in inv :: r.store[k] in seeds && KeyOf(r.store[k]) == k
    ensures r.completed ==> forall s | s in seeds :: KeyOf(s) in r.store
    decreases |seeds|
  {
    if |seeds| == 0 then Stage(inv, true)
    else
      var key := KeyOf(seeds[0]);
      assert seeds == [seeds[0]] + seeds[1..];
      if key in inv then SeedInventory(inv, seeds[1..])
      else if NameTaken(inv, seeds[0].name) || !Valid(seeds[0]) then Stage(inv, false)
      else SeedInventory(inv[key := seeds[0]], seeds[1..])
  }

  /** Seeding the inventory twice is seeding it once. */
  lemma {:induction false} SeedInventoryIdempotent(inv: Ledger, seeds: seq<Item>)
    ensures var once := SeedInventory(inv, seeds);
            SeedInventory(once.store, seeds) == once
    decreases |seeds|
  {
    if |seeds| > 0 {
      var key := KeyOf(seeds[0]);
      if key in inv {
        SeedInventoryIdempotent(inv, seeds[1..]);
      } else if NameTaken(inv, seeds[0].name) || !Valid(seeds[0]) {
      } else {
        SeedInventoryIdempotent(inv[key := seeds[0]], seeds[1..]);
      }
    }
  }

  /** Seeding keeps a valid ledger valid: every insert is a valid item under
      its own key with a name not yet used. */
  lemma {:induction false} SeedInventoryKeepsValid(inv: Ledger, seeds: seq<Item>)
    requires ValidLedger(inv)
    ensures ValidLedger(SeedInventory(inv, seeds).store)
    decreases |seeds|
  {
    if |seeds| > 0 {
      var key := KeyOf(seeds[0]);
      if key in inv {
        SeedInventoryKeepsValid(inv, seeds[1..]);
      } else if NameTaken(inv, seeds[0].name) || !Valid(seeds[0]) {
      } else {
        var next := inv[key := seeds[0]];
        InsertKeepsValid(inv, seeds[0]);
        SeedInventoryKeepsValid(next, seeds[1..]);
      }
    }
  }

  /** Inserting a valid item under its own key, with a name not yet used,
      keeps a ledger valid. */
  lemma {:induction false} InsertKeepsValid(inv: Ledger, item: Item)
    requires ValidLedger(inv) && Valid(item) && !NameTaken(inv, item.name)
    ensures ValidLedger(inv[KeyOf(item) := item])
  {
    var key := KeyOf(item);
    var next := inv[key := item];
    assert WellKeyed(next) by {
      forall k | k in next
        ensures KeyOf(next[k]) == k
      {
        if k != key {
          assert next[k] == inv[k];
        }
      }
    }
    assert UniqueNames(next.Keys) by {
      forall k1, k2 | k1 in next && k2 in next && k1.name == k2.name
        ensures k1 == k2
      {
        if k1 != key && k2 != key {
          assert k1 in inv && k2 in inv;
        }
      }
    }
    assert forall k | k in next :: Valid(next[k]) by {
      forall k | k in next
        ensures Valid(next[k])
      {
        if k != key {
          assert next[k] == inv[k];
        }
      }
    }
  }

  /** With names that are new to the ledger and to each other and items the
      schema accepts, the run gets through and adds every item. */
  lemma {:induction false} SeedInventoryCompletes(inv: Ledger, seeds: seq<Item>)
    requires forall i | 0 <= i < |seeds| :: Valid(seeds[i]) && !NameTaken(inv, seeds[i].name)
    requires forall i, j | 0 <= i < j < |seeds| :: seeds[i].name != seeds[j].name
    ensures SeedInventory(inv, seeds).completed
    decreases |seeds|
  {
    if |seeds| > 0 {
      var key := KeyOf(seeds[0]);
      var next := inv[key := seeds[0]];
      forall i | 0 <= i < |seeds[1..]|
        ensures !NameTaken(next, seeds[1..][i].name)
      {
        assert seeds[1..][i] == seeds[i + 1];
      }
      SeedInventoryCompletes(next, seeds[1..]);
    }
  }

  // ----- The whole run -----

  datatype Db = Db(users: Auth.Users, pizzas: seq<Catalog.Pizza>, inv: Ledger)

  /** Admin, then pizzas, then inventory; a failure among the pizzas means
      the inventory is never reached. */
  function Seed(db: Db, admin: Auth.User, pizzaSeeds: seq<Catalog.Pizza>, itemSeeds: seq<Item>): (r: Db)
    requires !HasEmail(db.users, admin.email) ==> admin.id !in db.users
    ensures r.users == SeedAdmin(db.users, admin)
    ensures r.pizzas == SeedPizzas(db.pizzas, pizzaSeeds).store
    ensures !SeedPizzas(db.pizzas, pizzaSeeds).completed ==> r.inv == db.inv
  {
    var users := SeedAdmin(db.users, admin);
    var pizzas := SeedPizzas(db.pizzas, pizzaSeeds);
    if !pizzas.completed then Db(users, pizzas.store, db.inv)
    else Db(users, pizzas.store, SeedInventory(db.inv, itemSeeds).store)
  }

  /** Seeding on every start-up is harmless: a second run changes nothing. */
  lemma {:induction false} SeedIdempotent(db: Db, admin: Auth.User, pizzaSeeds: seq<Catalog.Pizza>, itemSeeds: seq<Item>)
    requires !HasEmail(db.users, admin.email) ==> admin.id !in db.users
    ensures var once := Seed(db, admin, pizzaSeeds, itemSeeds);
            Seed(once, admin, pizzaSeeds, itemSeeds) == once
  {
    SeedAdminIdempotent(db.users, admin);
    SeedPizzasIdempotent(db.pizzas, pizzaSeeds);
    SeedInventoryIdempotent(db.inv, itemSeeds);
  }

  // ----- The seed data -----

  function Pizza(name: string, description: string, image: string, price: int, category: Catalog.PizzaCategory)
    : Catalog.Pizza
  {
    Catalog.Pizza(name, description, image, price, category, true)
  }

  const PIZZA_SEEDS: seq<Catalog.Pizza> := [
    Pizza("Margherita", "Classic tomato sauce with mozzarella cheese and fresh basil",
          "https://images.unsplash.com/photo-1604382354936-07c5d9983bd3?w=400", 299, Catalog.Vegetarian),
    Pizza("Pepperoni", "Spicy pepperoni with mozzarella cheese and tomato sauce",
          "https://images.unsplash.com/photo-1628840042765-356cda07504e?w=400", 399, Catalog.NonVegetarian),
    Pizza("Veggie Supreme", "Loaded with fresh vegetables and mozzarella cheese",
          "https://images.unsplash.com/photo-1513104890138-7c749659a591?w=400", 349, Catalog.Vegetarian),
    Pizza("BBQ Chicken", "BBQ sauce with grilled chicken and red onions",
          "https://images.unsplash.com/photo-1565299624946-b28f40a0ca4b?w=400", 449, Catalog.NonVegetarian),
    Pizza("Four Cheese", "A blend of four delicious cheeses",
          "https://images.unsplash.com/photo-1574071318508-1cdbab80d002?w=400", 379, Catalog.Vegetarian)
  ]

  /** One seeded inventory item, stamped `now` by the schema default. */
  function Seeded(name: string, category: Category, stock: int, max: int, threshold: int, unit: Unit, price: int, now: int)
    : Item
  {
    Item(name, category, stock, max, threshold, unit, price, true, now)
  }

  function InventorySeeds(now: int): seq<Item>
  {
    [
      Seeded("Classic Crust", Base, 50, 100, 20, Pieces, 50, now),
      Seeded("Thin Crust", Base, 40, 80, 15, Pieces, 45, now),
      Seeded("Stuffed Crust", Base, 30, 60, 12, Pieces, 65, now),
      Seeded("Gluten Free", Base, 25, 50, 10, Pieces, 75, now),
      Seeded("Whole Wheat", Base, 35, 70, 15, Pieces, 55, now),
      Seeded("Tomato Sauce", Sauce, 20, 40, 8, Liters, 80, now),
      Seeded("BBQ Sauce", Sauce, 15, 30, 6, Liters, 120, now),
      Seeded("White Sauce", Sauce, 12, 25, 5, Liters, 150, now),
      Seeded("Pesto Sauce", Sauce, 8, 20, 4, Liters, 200, now),
      Seeded("Buffalo Sauce", Sauce, 10, 20, 4, Liters, 180, now),
      Seeded("Mozzarella Cheese", Cheese, 25, 50, 10, Kg, 400, now),
      Seeded("Cheddar Cheese", Cheese, 20, 40, 8, Kg, 450, now),
      Seeded("Parmesan Cheese", Cheese, 15, 30, 6, Kg, 600, now),
      Seeded("Gorgonzola Cheese", Cheese, 8, 20, 4, Kg, 800, now),
      Seeded("Bell Peppers", Veggies, 15, 30, 6, Kg, 120, now),
      Seeded("Mushrooms", Veggies, 12, 25, 5, Kg, 200, now),
      Seeded("Onions", Veggies, 20, 40, 8, Kg, 80, now),
      Seeded("Olives", Veggies, 10, 20, 4, Kg, 300, now),
      Seeded("Tomatoes", Veggies, 18, 35, 7, Kg, 100, now),
      Seeded("Spinach", Veggies, 8, 15, 3, Kg, 150, now),
      Seeded("Pepperoni", Meat, 15, 30, 6, Kg, 500, now),
      Seeded("Grilled Chicken", Meat, 20, 40, 8, Kg, 400, now),
      Seeded("Bacon", Meat, 12, 25, 5, Kg, 600, now),
      Seeded("Sausage", Meat, 10, 20, 4, Kg, 450, now)
    ]
  }

  /** Every seeded item starts at or below its maximum and strictly above
      its threshold, so none is low right after seeding. */
  lemma {:induction false} SeedStockLevels(now: int)
    ensures |InventorySeeds(now)| == 24
    ensures forall i | 0 <= i < 24 ::
              var s := InventorySeeds(now)[i];
              0 <= s.threshold < s.currentStock <= s.maxStock && s.price >= 0 && s.isAvailable
    ensures forall i | 0 <= i < 24 :: !IsLowStock(InventorySeeds(now)[i])
  {
  }

  predicate Unpadded(s: string)
  {
    |s| > 0 && !Text.IsSpace(s[0]) && !Text.IsSpace(s[|s| - 1])
  }

  /** The seeded item names, in seeding order. */
  const SEED_NAMES: seq<string> := [
    "Classic Crust", "Thin Crust", "Stuffed Crust", "Gluten Free", "Whole Wheat",
    "Tomato Sauce", "BBQ Sauce", "White Sauce", "Pesto Sauce", "Buffalo Sauce",
    "Mozzarella Cheese", "Cheddar Cheese", "Parmesan Cheese", "Gorgonzola Cheese",
    "Bell Peppers", "Mushrooms", "Onions", "Olives", "Tomatoes", "Spinach",
    "Pepperoni", "Grilled Chicken", "Bacon", "Sausage"
  ]

  lemma {:induction false} SeedNames(now: int)
    ensures |InventorySeeds(now)| == |SEED_NAMES|
    ensures forall i | 0 <= i < |SEED_NAMES| :: InventorySeeds(now)[i].name == SEED_NAMES[i]
  {
  }

  lemma {:induction false} SeedNamesUnpadded()
    ensures forall i | 0 <= i < |SEED_NAMES| :: Unpadded(SEED_NAMES[i])
  {
  }

  /** Every seeded item passes the inventory schema. */
  lemma {:induction false} SeedItemsValid(now: int)
    ensures forall i | 0 <= i < |InventorySeeds(now)| :: Valid(InventorySeeds(now)[i])
  {
    var seeds := InventorySeeds(now);
    SeedStockLevels(now);
    SeedNames(now);
    SeedNamesUnpadded();
    forall i | 0 <= i < |seeds|
      ensures Valid(seeds[i])
    {
      Text.TrimUnpadded(SEED_NAMES[i]);
    }
  }

  /** Every seeded pizza passes the pizza schema. */
  lemma {:induction false} SeedPizzasValid()
    ensures forall i | 0 <= i < |PIZZA_SEEDS| :: Catalog.Valid(PIZZA_SEEDS[i])
  {
    assert forall i | 0 <= i < |PIZZA_SEEDS| :: Unpadded(PIZZA_SEEDS[i].name);
    forall i | 0 <= i < |PIZZA_SEEDS|
      ensures Catalog.Valid(PIZZA_SEEDS[i])
    {
      Text.TrimUnpadded(PIZZA_SEEDS[i].name);
    }
  }

  /** Seeding an empty inventory with valid, distinctly named items that are
      not low inserts them all, leaves a valid ledger and reports nothing
      low. */
  lemma {:induction false} FreshSeed(seeds: seq<Item>)
    requires forall i | 0 <= i < |seeds| :: Valid(seeds[i]) && !IsLowStock(seeds[i])
    requires forall i, j | 0 <= i < j < |seeds| :: seeds[i].name != seeds[j].name
    ensures var r := SeedInventory(map[], seeds);
            r.completed && ValidLedger(r.store) && LowStockKeys(r.store) == {}
  {
    var empty: Ledger := map[];
    assert forall i | 0 <= i < |seeds| :: !NameTaken(empty, seeds[i].name);
    SeedInventoryCompletes(empty, seeds);
    assert ValidLedger(empty);
    SeedInventoryKeepsValid(empty, seeds);
    var r := SeedInventory(empty, seeds);
    forall k | k in r.store
      ensures !IsLowStock(r.store[k])
    {
      assert r.store[k] in seeds;
    }
    assert LowStockKeys(r.store) == {};
  }

  /** The seed data itself: on an empty inventory all twenty-four items go
      in and none is low. */
  lemma {:induction false} FreshInventorySeed(now: int)
    ensures var r := SeedInventory(map[], InventorySeeds(now));
            r.completed && ValidLedger(r.store) && LowStockKeys(r.store) == {}
  {
    SeedItemsValid(now);
    SeedNamesDistinct(now);
    SeedStockLevels(now);
    FreshSeed(InventorySeeds(now));
  }

  lemma {:induction false} SeedNameListDistinct()
    ensures forall i, j | 0 <= i < j < |SEED_NAMES| :: SEED_NAMES[i] != SEED_NAMES[j]
  {
  }

  lemma {:induction false} SeedNamesDistinct(now: int)
    ensures forall i, j | 0 <= i < j < |InventorySeeds(now)| :: InventorySeeds(now)[i].name != InventorySeeds(now)[j].name
  {
    SeedNames(now);
    SeedNameListDistinct();
  }
}
