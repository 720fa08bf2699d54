/** The pizza catalogue of the server: the pizza document and its schema,
    the public menu routes, the customization options drawn from inventory,
    and the gate in front of the catalogue's write routes. */
module Catalog {
  import opened Wrappers
  import opened Http
  import Seqs
  import Text
  import Inventory
  import Auth

  datatype PizzaCategory = Vegetarian | NonVegetarian | Vegan

  function PizzaCategoryName(c: PizzaCategory): string
  {
    match c
    case Vegetarian => "vegetarian"
    case NonVegetarian => "non-vegetarian"
    case Vegan => "vegan"
  }

  /** The schema's category enum. */
  function ParsePizzaCategory(s: string): (r: Option<PizzaCategory>)
    ensures r.Some? ==> PizzaCategoryName(r.value) == s
    ensures r.None? ==> forall c: PizzaCategory :: PizzaCategoryName(c) != s
  {
    if s == "vegetarian" then Some(Vegetarian)
    else if s == "non-vegetarian" then Some(NonVegetarian)
    else if s == "vegan" then Some(Vegan)
    else None
  }

  lemma {:induction false} PizzaCategoryRoundTrip(c: PizzaCategory)
    ensures ParsePizzaCategory(PizzaCategoryName(c)) == Some(c)
  {
  }

  /** A pizza document; ingredients and nutrition figures are informational
      and not modelled. */
  datatype Pizza = Pizza(
    name: string,
    description: string,
    image: string,
    basePrice: int,
    category: PizzaCategory,
    isAvailable: bool)

  /** What the schema accepts: a required, trimmed name, a required
      description and image, and a price that is not negative. */
  predicate Valid(p: Pizza)
  {
    && |p.name| > 0 && Text.Trim(p.name) == p.name
    && |p.description| > 0
    && |p.image| > 0
    && p.basePrice >= 0
  }

  /** The fields a create request supplies; `None` is an absent field. */
  datatype PizzaInput = PizzaInput(
    name: string,
    description: string,
    image: string,
    basePrice: Option<int>,
    category: string,
    isAvailable: Option<bool>)

  /** The document the schema builds from an input: the name is trimmed as
      it is set, availability defaults to true, and validation rejects an
      empty name, description or image, a missing or negative price and a
      category outside the enum. */
  function Build(input: PizzaInput): (r: Option<Pizza>)
    ensures r.Some? <==>
              && |Text.Trim(input.name)| > 0 && |input.description| > 0 && |input.image| > 0
              && input.basePrice.Some? && input.basePrice.value >= 0
              && ParsePizzaCategory(input.category).Some?
    ensures r.Some? ==>
              && Valid(r.value)
              && r.value.name == Text.Trim(input.name)
              && PizzaCategoryName(r.value.category) == input.category
              && r.value.basePrice == input.basePrice.value
              && r.value.isAvailable == input.isAvailable.GetOr(true)
  {
    var name := Text.Trim(input.name);
    if |name| == 0 || |input.description| == 0 || |input.image| == 0 then None
    else if input.basePrice.None? || input.basePrice.value < 0 then None
    else match ParsePizzaCategory(input.category)
      case None => None
      case Some(c) =>
        Text.TrimIdempotent(input.name);
        Some(Pizza(name, input.description, input.image, input.basePrice.value, c,
                   input.isAvailable.GetOr(true)))
  }

  /** A pizza built without an availability flag is on the menu. */
  lemma {:induction false} DefaultAvailable(input: PizzaInput)
    requires input.isAvailable.None? && Build(input).Some?
    ensures Build(input).value.isAvailable
  {
  }

  type PizzaId = nat
  type Menu = map<PizzaId, Pizza>

  /** The schema's `unique: true` on the name. */
  predicate UniqueNames(menu: Menu)
  {
    forall a, b | a in menu && b in menu && menu[a].name == menu[b].name :: a == b
  }

  const PIZZA_NOT_FOUND: string := "Pizza not found"
  const SERVER_ERROR_MESSAGE: string := "Server error"

  /** The fields the create route takes from the request body and hands to
      the schema: everything but the availability flag, which the route
      never forwards. */
  function Forwarded(input: PizzaInput): (r: PizzaInput)
    ensures r.isAvailable.None?
    ensures r.(isAvailable := input.isAvailable) == input
  {
    input.(isAvailable := None)
  }

  /** `POST /api/pizza`: 500 when validation fails or the trimmed name is
      already taken; otherwise the new document is stored under `newId`. */
  function CreatePizza(menu: Menu, newId: PizzaId, input: PizzaInput): (r: (Response<Pizza>, Menu))
    requires newId !in menu
    ensures r.0.IsSuccess() <==>
              Build(Forwarded(input)).Some? && forall id | id in menu :: menu[id].name != Build(Forwarded(input)).value.name
    ensures r.0.IsSuccess() ==> r.0.code == CREATED && r.1 == menu[newId := r.0.body] && r.0.body == Build(Forwarded(input)).value
    ensures r.0.IsSuccess() ==> r.0.body.isAvailable
    ensures !r.0.IsSuccess() ==> r == (Reject(SERVER_ERROR, SERVER_ERROR_MESSAGE), menu)
  {
    match Build(Forwarded(input))
    case None => (Reject(SERVER_ERROR, SERVER_ERROR_MESSAGE), menu)
    case Some(p) =>
      if exists id | id in menu :: menu[id].name == p.name then (Reject(SERVER_ERROR, SERVER_ERROR_MESSAGE), menu)
      else (Reply(CREATED, p), menu[newId := p])
  }

  /** Every pizza the create route stores is on the menu, whatever the
      request says about availability: asking for an unavailable pizza
      gives the same result as not asking. */
  lemma {:induction false} NewPizzaAvailable(menu: Menu, newId: PizzaId, input: PizzaInput)
    requires newId !in menu
    ensures CreatePizza(menu, newId, input).0.IsSuccess() ==> CreatePizza(menu, newId, input).0.body.isAvailable
    ensures CreatePizza(menu, newId, input) == CreatePizza(menu, newId, input.(isAvailable := Some(false)))
  {
    assert Forwarded(input) == Forwarded(input.(isAvailable := Some(false)));
  }

  /** Creating keeps the names unique and every stored pizza valid. */
  lemma {:induction false} CreateKeepsMenuWellFormed(menu: Menu, newId: PizzaId, input: PizzaInput)
    requires newId !in menu
    requires UniqueNames(menu) && forall id | id in menu :: Valid(menu[id])
    ensures var after := CreatePizza(menu, newId, input).1;
            UniqueNames(after) && forall id | id in after :: Valid(after[id])
  {
  }

  /** `GET /api/pizza/:id`: 404 for an unknown id; availability is not
      checked here. */
  function GetPizza(menu: Menu, id: PizzaId): (r: Response<Pizza>)
    ensures r.IsSuccess() <==> id in menu
    ensures r.IsSuccess() ==> r == Reply(OK, menu[id])
    ensures !r.IsSuccess() ==> r == Reject(NOT_FOUND, PIZZA_NOT_FOUND)
  {
    if id in menu then Reply(OK, menu[id]) else Reject(NOT_FOUND, PIZZA_NOT_FOUND)
  }

  // ----- The public menu -----

  function IsAvailable(p: Pizza): bool
  {
    p.isAvailable
  }

  function AvailableIn(category: string): Pizza -> bool
  {
    (p: Pizza) => p.isAvailable && PizzaCategoryName(p.category) == category
  }

  /** `GET /api/pizza`: the available pizzas, in store order. */
  function AvailablePizzas(docs: seq<Pizza>): (r: seq<Pizza>)
    ensures forall p :: p in r <==> p in docs && p.isAvailable
    ensures Seqs.IsSubsequence(r, docs)
  {
    Seqs.Filter(docs, IsAvailable)
  }

  /** `GET /api/pizza/category/:category`: the available pizzas whose stored
      category is exactly the requested string. */
  function PizzasIn(docs: seq<Pizza>, category: string): (r: seq<Pizza>)
    ensures forall p :: p in r <==> p in docs && p.isAvailable && PizzaCategoryName(p.category) == category
    ensures Seqs.IsSubsequence(r, docs)
    ensures ParsePizzaCategory(category).None? ==> r == []
  {
    Seqs.Filter(docs, AvailableIn(category))
  }

  /** The three category listings split the menu: every available pizza is
      in exactly one of them. */
  lemma {:induction false} CategoriesSplitMenu(docs: seq<Pizza>)
    ensures |AvailablePizzas(docs)| ==
              |PizzasIn(docs, PizzaCategoryName(Vegetarian))| + |PizzasIn(docs, PizzaCategoryName(NonVegetarian))|
              + |PizzasIn(docs, PizzaCategoryName(Vegan))|
  {
    CountsSplit(docs);
    Seqs.CountIsFilterLength(docs, IsAvailable);
    Seqs.CountIsFilterLength(docs, AvailableIn(PizzaCategoryName(Vegetarian)));
    Seqs.CountIsFilterLength(docs, AvailableIn(PizzaCategoryName(NonVegetarian)));
    Seqs.CountIsFilterLength(docs, AvailableIn(PizzaCategoryName(Vegan)));
  }

  lemma {:induction false} CountsSplit(docs: seq<Pizza>)
    ensures Seqs.Count(docs, IsAvailable) ==
              Seqs.Count(docs, AvailableIn(PizzaCategoryName(Vegetarian)))
              + Seqs.Count(docs, AvailableIn(PizzaCategoryName(NonVegetarian)))
              + Seqs.Count(docs, AvailableIn(PizzaCategoryName(Vegan)))
  {
    if |docs| > 0 {
      CountsSplit(docs[1..]);
    }
  }

  // ----- Customization options -----

  /** An inventory item offered as an option: in `category`, available and
      with stock left. */
  function Offered(category: Inventory.Category): Inventory.Item -> bool
  {
    (i: Inventory.Item) => i.category == category && i.isAvailable && i.currentStock > 0
  }

  datatype Options = Options(
    bases: seq<Inventory.Item>,
    sauces: seq<Inventory.Item>,
    cheeses: seq<Inventory.Item>,
    veggies: seq<Inventory.Item>,
    meat: seq<Inventory.Item>)

  /** The bucket of `options` that holds `category`. */
  function Bucket(options: Options, category: Inventory.Category): seq<Inventory.Item>
  {
    match category
    case Base => options.bases
    case Sauce => options.sauces
    case Cheese => options.cheeses
    case Veggies => options.veggies
    case Meat => options.meat
  }

  /** `GET /api/pizza/customization/options`: one query per category. */
  function CustomizationOptions(docs: seq<Inventory.Item>): Options
  {
    Options(Seqs.Filter(docs, Offered(Inventory.Base)), Seqs.Filter(docs, Offered(Inventory.Sauce)),
            Seqs.Filter(docs, Offered(Inventory.Cheese)), Seqs.Filter(docs, Offered(Inventory.Veggies)),
            Seqs.Filter(docs, Offered(Inventory.Meat)))
  }

  /** Each bucket holds exactly the items of its category that are
      available and have stock left. */
  lemma {:induction false} OptionsExact(docs: seq<Inventory.Item>, c: Inventory.Category, i: Inventory.Item)
    ensures i in Bucket(CustomizationOptions(docs), c) <==>
              i in docs && i.category == c && i.isAvailable && i.currentStock > 0
  {
    assert Bucket(CustomizationOptions(docs), c) == Seqs.Filter(docs, Offered(c));
  }

  /** No item sits in two buckets, and an item out of stock sits in none,
      however it is flagged. */
  lemma {:induction false} OptionsDisjoint(docs: seq<Inventory.Item>, c1: Inventory.Category, c2: Inventory.Category, i: Inventory.Item)
    requires c1 != c2
    ensures !(i in Bucket(CustomizationOptions(docs), c1) && i in Bucket(CustomizationOptions(docs), c2))
    ensures i.currentStock <= 0 ==> i !in Bucket(CustomizationOptions(docs), c1)
  {
    OptionsExact(docs, c1, i);
    OptionsExact(docs, c2, i);
  }

  /** Every available item with stock is offered, in its own category's
      bucket. */
  lemma {:induction false} OptionsCover(docs: seq<Inventory.Item>, i: Inventory.Item)
    requires i in docs && i.isAvailable && i.currentStock > 0
    ensures i in Bucket(CustomizationOptions(docs), i.category)
  {
    OptionsExact(docs, i.category, i);
  }

  // ----- Write routes -----

  /** The gate the create, update and delete routes sit behind, as
      written: `protect` alone, so any signed-in user passes. This is the
      as-written half of the menu-gate finding; its contract only names the
      gate, and CustomerPassesWriteGate below exhibits the customer that
      gets through it, while WriteGate is the corrected half. */
  function WriteGateAsWritten(header: Option<string>, verify: string -> Option<Auth.UserId>, users: Auth.Users)
    : (r: Response<Auth.User>)
    ensures r == Auth.Protect(header, verify, users)
  {
    Auth.Protect(header, verify, users)
  }

  /** The gate the routes document ("Admin only"): `protect, admin`. */
  function WriteGate(header: Option<string>, verify: string -> Option<Auth.UserId>, users: Auth.Users)
    : (r: Response<Auth.User>)
    ensures r.IsSuccess() ==> r.body.role == Auth.ADMIN_ROLE
    ensures r.IsSuccess() ==> WriteGateAsWritten(header, verify, users).IsSuccess()
  {
    Auth.AdminOnly(header, verify, users)
  }

  /** A customer holding a valid token passes the gate as written and is
      stopped by the admin gate. */
  lemma {:induction false} CustomerPassesWriteGate(token: string, verify: string -> Option<Auth.UserId>, users: Auth.Users)
    requires token != "" && ' ' !in token
    requires verify(token).Some? && verify(token).value in users
    requires users[verify(token).value].role == Auth.USER_ROLE
    ensures WriteGateAsWritten(Some("Bearer " + token), verify, users).IsSuccess()
    ensures !WriteGate(Some("Bearer " + token), verify, users).IsSuccess()
  {
    Auth.ProtectAcceptsIssuedToken(token, verify, users);
  }
}
