/** The stock monitor of the server: the low-stock scan, the decrement of
    every ingredient an order uses, and the per-category summary. */
module StockMonitor {
  import opened Wrappers
  import Seqs
  import opened Inventory
  import Orders

  // ----- The low-stock scan -----

  /** The scan's answer; `notified` says whether the notification mail goes
      out (its delivery is not modelled). */
  datatype ScanReport = ScanReport(notified: bool, lowStockItems: seq<Item>)

  predicate LowAndAvailable(item: Item)
  {
    item.isAvailable && IsLowStock(item)
  }

  /** `checkStockLevels`: of the stored documents, keeps the available ones at
      or below threshold, in store order, and notifies iff there is one. */
  function CheckStockLevels(docs: seq<Item>): (r: ScanReport)
    ensures forall x :: x in r.lowStockItems <==> x in docs && x.isAvailable && IsLowStock(x)
    ensures Seqs.IsSubsequence(r.lowStockItems, docs)
    ensures r.notified <==> |r.lowStockItems| > 0
    ensures !r.notified <==> forall i :: 0 <= i < |docs| ==> !docs[i].isAvailable || !IsLowStock(docs[i])
  {
    var low := Seqs.Filter(docs, LowAndAvailable);
    Seqs.CountIsFilterLength(docs, LowAndAvailable);
    if |low| > 0 then ScanReport(true, low) else ScanReport(false, [])
  }

  /** The documents `docs` are exactly the ledger's items, each once. */
  ghost predicate Lists(docs: seq<Item>, inv: Ledger)
  {
    && Seqs.NoDuplicates(docs)
    && (forall i :: 0 <= i < |docs| ==> KeyOf(docs[i]) in inv && inv[KeyOf(docs[i])] == docs[i])
    && (forall k | k in inv :: inv[k] in docs)
  }

  /** Over a listing of a well-keyed ledger, the scan reports exactly the
      ledger's low-stock keys. */
  lemma {:induction false} ScanMatchesLedger(docs: seq<Item>, inv: Ledger)
    requires WellKeyed(inv) && Lists(docs, inv)
    ensures (set x | x in CheckStockLevels(docs).lowStockItems :: KeyOf(x)) == LowStockKeys(inv)
  {
    var r := CheckStockLevels(docs);
    var reported := set x | x in r.lowStockItems :: KeyOf(x);
    forall k | k in LowStockKeys(inv)
      ensures k in reported
    {
      assert inv[k] in docs && KeyOf(inv[k]) == k;
    }
    forall k | k in reported
      ensures k in LowStockKeys(inv)
    {
      var x :| x in r.lowStockItems && KeyOf(x) == k;
      var i :| 0 <= i < |docs| && docs[i] == x;
    }
  }

  // ----- The order fan-out -----

  /** The (name, category) keys one line's customizations reach, in the
      order the loop visits them: base, sauce, cheese, each veggie, each
      meat. */
  function LineKeys(c: Orders.Customizations): seq<Key>
  {
    OptionKey(c.base, Base) + OptionKey(c.sauce, Sauce) + OptionKey(c.cheese, Cheese)
    + ChoiceKeys(c.veggies, Veggies) + ChoiceKeys(c.meat, Meat)
  }

  /** Every customization the line names contributes its key, and nothing
      else does. */
  lemma {:induction false} LineKeysCover(c: Orders.Customizations, k: Key)
    ensures k in LineKeys(c) <==>
              || (c.base.Some? && k == Key(c.base.value.name, Base))
              || (c.sauce.Some? && k == Key(c.sauce.value.name, Sauce))
              || (c.cheese.Some? && k == Key(c.cheese.value.name, Cheese))
              || (k.category == Veggies && exists v | v in c.veggies :: v.name == k.name)
              || (k.category == Meat && exists m | m in c.meat :: m.name == k.name)
    ensures |LineKeys(c)| == (if c.base.Some? then 1 else 0) + (if c.sauce.Some? then 1 else 0)
                             + (if c.cheese.Some? then 1 else 0) + |c.veggies| + |c.meat|
  {
    var vs := ChoiceKeys(c.veggies, Veggies);
    var ms := ChoiceKeys(c.meat, Meat);
    assert k in vs <==> k.category == Veggies && exists v | v in c.veggies :: v.name == k.name by {
      if k in vs {
        var i :| 0 <= i < |vs| && vs[i] == k;
        assert c.veggies[i] in c.veggies;
      }
      if k.category == Veggies && exists v | v in c.veggies :: v.name == k.name {
        var v :| v in c.veggies && v.name == k.name;
        var i :| 0 <= i < |c.veggies| && c.veggies[i] == v;
        assert vs[i] == k;
      }
    }
    assert k in ms <==> k.category == Meat && exists m | m in c.meat :: m.name == k.name by {
      if k in ms {
        var i :| 0 <= i < |ms| && ms[i] == k;
        assert c.meat[i] in c.meat;
      }
      if k.category == Meat && exists m | m in c.meat :: m.name == k.name {
        var m :| m in c.meat && m.name == k.name;
        var i :| 0 <= i < |c.meat| && c.meat[i] == m;
        assert ms[i] == k;
      }
    }
  }

  function OptionKey(choice: Option<Orders.Choice>, category: Category): seq<Key>
  {
    if choice.Some? then [Key(choice.value.name, category)] else []
  }

  function ChoiceKeys(choices: seq<Orders.Choice>, category: Category): (r: seq<Key>)
    ensures |r| == |choices|
    ensures forall i :: 0 <= i < |r| ==> r[i] == Key(choices[i].name, category)
  {
    if |choices| == 0 then [] else [Key(choices[0].name, category)] + ChoiceKeys(choices[1..], category)
  }

  /** One `findOne` + `updateStock(delta)` per key, in order; unknown keys
      are skipped. The fan-out passes the line's negated quantity. */
  function StepKeys(inv: Ledger, keys: seq<Key>, delta: int, now: int): (r: Ledger)
    ensures r.Keys == inv.Keys
    ensures forall k | k in inv && k !in keys :: r[k] == inv[k]
    ensures ValidLedger(inv) ==> ValidLedger(r)
    decreases |keys|
  {
    if |keys| == 0 then inv
    else
      var next := UpdateIfPresent(inv, keys[0], delta, now);
      assert ValidLedger(inv) ==> ValidLedger(next) by {
        if ValidLedger(inv) {
          UpdateIfPresentKeepsValid(inv, keys[0], delta, now);
        }
      }
      StepKeys(next, keys[1..], delta, now)
  }

  /** The outcome of `updateInventoryAfterOrder`: the ledger it leaves
      behind, and whether it ran to the end (`false`: it threw part-way). */
  datatype FanOut = FanOut(inv: Ledger, completed: bool)

  /** `updateInventoryAfterOrder`: every line in turn decrements its keys by
      its quantity. A line with no customizations object throws at once;
      the lines before it stay applied. */
  function ApplyLines(inv: Ledger, lines: seq<Orders.OrderLine>, now: int): (r: FanOut)
    ensures r.inv.Keys == inv.Keys
    ensures ValidLedger(inv) ==> ValidLedger(r.inv)
    decreases |lines|
  {
    if |lines| == 0 then FanOut(inv, true)
    else if lines[0].customizations.None? then FanOut(inv, false)
    else ApplyLines(LineStep(inv, lines[0], now), lines[1..], now)
  }

  /** One line's decrements: `updateStock(-quantity)` for each of its keys. */
  function LineStep(inv: Ledger, line: Orders.OrderLine, now: int): (r: Ledger)
    requires line.customizations.Some?
    ensures r.Keys == inv.Keys
    ensures ValidLedger(inv) ==> ValidLedger(r)
  {
    StepKeys(inv, LineKeys(line.customizations.value), LineDelta(line), now)
  }

  /** The fan-out calls `updateStock(-quantity)`. */
  function LineDelta(line: Orders.OrderLine): int
  {
    -line.quantity
  }

  /** The fan-out runs to the end iff every line has customizations. */
  lemma {:induction false} FanOutCompletes(inv: Ledger, lines: seq<Orders.OrderLine>, now: int)
    ensures ApplyLines(inv, lines, now).completed <==> forall i :: 0 <= i < |lines| ==> lines[i].customizations.Some?
    decreases |lines|
  {
    if |lines| > 0 && lines[0].customizations.Some? {
      FanOutCompletes(LineStep(inv, lines[0], now), lines[1..], now);
      assert forall i :: 1 <= i < |lines| ==> lines[i] == lines[1..][i - 1];
    }
  }

  /** The change one line asks of key `k`: its delta once per time its keys
      name `k`. */
  function KeyDelta(keys: seq<Key>, k: Key, delta: int): int
  {
    if |keys| == 0 then 0
    else (if keys[0] == k then delta else 0) + KeyDelta(keys[1..], k, delta)
  }

  /** ... which is the delta times the number of occurrences. */
  lemma {:induction false} KeyDeltaIsProduct(keys: seq<Key>, k: Key, delta: int)
    ensures KeyDelta(keys, k, delta) == delta * Seqs.Occurrences(keys, k)
  {
    if |keys| > 0 {
      var rest := keys[1..];
      var n := Seqs.Occurrences(rest, k);
      assert KeyDelta(rest, k, delta) == delta * n by {
        KeyDeltaIsProduct(rest, k, delta);
      }
      if keys[0] == k {
        assert Seqs.Occurrences(keys, k) == n + 1;
        MulSucc(delta, n);
      } else {
        assert Seqs.Occurrences(keys, k) == n;
      }
    }
  }

  /** One more occurrence adds one more delta. */
  lemma {:induction false} MulSucc(a: int, n: int)
    ensures a * (n + 1) == a + a * n
  {
  }

  /** The net change the lines ask of key `k`: minus Σ quantity × (times
      the line's customizations name `k`). Lines without customizations
      ask nothing. */
  function Change(lines: seq<Orders.OrderLine>, k: Key): int
  {
    if |lines| == 0 then 0
    else
      LineChange(lines[0], k) + Change(lines[1..], k)
  }

  /** The change one line asks of key `k`. */
  function LineChange(line: Orders.OrderLine, k: Key): int
  {
    match line.customizations
    case None => 0
    case Some(c) => KeyDelta(LineKeys(c), k, LineDelta(line))
  }

  /** Per key, a run of decrements is one clamped decrement by the line's
      total for it. */
  lemma {:induction false} StepKeysEffect(inv: Ledger, keys: seq<Key>, delta: int, now: int, k: Key)
    requires delta <= 0
    requires k in inv && inv[k].currentStock >= 0
    ensures KeyDelta(keys, k, delta) <= 0
    ensures StepKeys(inv, keys, delta, now)[k] == UpdateStock(inv[k], KeyDelta(keys, k, delta), now)
    decreases |keys|
  {
    if |keys| > 0 {
      var next := UpdateIfPresent(inv, keys[0], delta, now);
      var rest := KeyDelta(keys[1..], k, delta);
      StepKeysEffect(next, keys[1..], delta, now, k);
      if keys[0] == k {
        DecrementsCompose(inv[k], delta, rest, now, now, now);
      } else {
        assert next[k] == inv[k];
      }
    }
  }

  /** The net effect of a completed fan-out over lines with non-negative
      quantities (the schema guarantees at least 1): every item becomes
      `updateStock(change)`, that is max(0, stock + change) with nothing
      else changed. */
  lemma {:induction false} FanOutEffect(inv: Ledger, lines: seq<Orders.OrderLine>, now: int, k: Key)
    requires forall i :: 0 <= i < |lines| ==> lines[i].customizations.Some? && lines[i].quantity >= 0
    requires k in inv && inv[k].currentStock >= 0
    ensures Change(lines, k) <= 0
    ensures ApplyLines(inv, lines, now).inv[k] == UpdateStock(inv[k], Change(lines, k), now)
    decreases |lines|
  {
    if |lines| > 0 {
      var rest := lines[1..];
      var next := LineStep(inv, lines[0], now);
      assert forall i :: 0 <= i < |rest| ==> rest[i] == lines[i + 1];
      LineStepEffect(inv, lines[0], now, k);
      FanOutEffect(next, rest, now, k);
      FanOutFirstLine(inv, lines, now, k, next);
    }
  }

  /** The step of `FanOutEffect`: the first line's decrement followed by
      the rest's is one decrement by their sum. */
  lemma {:induction false} FanOutFirstLine(inv: Ledger, lines: seq<Orders.OrderLine>, now: int, k: Key, next: Ledger)
    requires |lines| > 0 && lines[0].customizations.Some? && k in inv && k in next
    requires next == LineStep(inv, lines[0], now)
    requires LineChange(lines[0], k) <= 0 && next[k] == UpdateStock(inv[k], LineChange(lines[0], k), now)
    requires Change(lines[1..], k) <= 0
    requires ApplyLines(next, lines[1..], now).inv[k] == UpdateStock(next[k], Change(lines[1..], k), now)
    ensures Change(lines, k) <= 0
    ensures ApplyLines(inv, lines, now).inv[k] == UpdateStock(inv[k], Change(lines, k), now)
  {
    var here, later := LineChange(lines[0], k), Change(lines[1..], k);
    assert Change(lines, k) == here + later by {
      ChangeUnfold(lines, k);
    }
    assert ApplyLines(inv, lines, now).inv[k] == UpdateStock(inv[k], here + later, now) by {
      ApplyLinesUnfold(inv, lines, now);
      DecrementsCompose(inv[k], here, later, now, now, now);
    }
  }

  lemma {:induction false} ChangeUnfold(lines: seq<Orders.OrderLine>, k: Key)
    requires |lines| > 0
    ensures Change(lines, k) == LineChange(lines[0], k) + Change(lines[1..], k)
  {
  }

  lemma {:induction false} ApplyLinesUnfold(inv: Ledger, lines: seq<Orders.OrderLine>, now: int)
    requires |lines| > 0 && lines[0].customizations.Some?
    ensures ApplyLines(inv, lines, now) == ApplyLines(LineStep(inv, lines[0], now), lines[1..], now)
  {
  }

  /** One line's effect on one key. */
  lemma {:induction false} LineStepEffect(inv: Ledger, line: Orders.OrderLine, now: int, k: Key)
    requires line.customizations.Some? && line.quantity >= 0
    requires k in inv && inv[k].currentStock >= 0
    ensures LineChange(line, k) <= 0
    ensures LineStep(inv, line, now)[k] == UpdateStock(inv[k], LineChange(line, k), now)
  {
    StepKeysEffect(inv, LineKeys(line.customizations.value), LineDelta(line), now, k);
  }

  /** An item no line names is left exactly as it was. */
  lemma {:induction false} UnnamedItemUnchanged(inv: Ledger, lines: seq<Orders.OrderLine>, now: int, k: Key)
    requires forall i :: 0 <= i < |lines| ==> lines[i].customizations.Some? && lines[i].quantity >= 0
    requires k in inv && inv[k].currentStock >= 0
    requires forall i :: 0 <= i < |lines| ==> k !in LineKeys(lines[i].customizations.value)
    ensures ApplyLines(inv, lines, now).inv[k] == inv[k]
  {
    FanOutEffect(inv, lines, now, k);
    NoChangeUnnamed(lines, k);
  }

  lemma {:induction false} NoChangeUnnamed(lines: seq<Orders.OrderLine>, k: Key)
    requires forall i :: 0 <= i < |lines| ==> lines[i].customizations.Some?
    requires forall i :: 0 <= i < |lines| ==> k !in LineKeys(lines[i].customizations.value)
    ensures Change(lines, k) == 0
  {
    if |lines| > 0 {
      var keys := LineKeys(lines[0].customizations.value);
      KeyDeltaIsProduct(keys, k, LineDelta(lines[0]));
      NoChangeUnnamed(lines[1..], k);
    }
  }

  /** A line without customizations stops the fan-out there: the earlier
      lines' decrements stay, the later lines are never applied. */
  lemma {:induction false} FanOutStopsAtMissing(inv: Ledger, lines: seq<Orders.OrderLine>, now: int, i: nat)
    requires i < |lines| && lines[i].customizations.None?
    requires forall j :: 0 <= j < i ==> lines[j].customizations.Some?
    ensures ApplyLines(inv, lines, now) == FanOut(ApplyLines(inv, lines[..i], now).inv, false)
    decreases i
  {
    if i > 0 {
      var next := LineStep(inv, lines[0], now);
      assert lines[1..][..i - 1] == lines[..i][1..];
      FanOutStopsAtMissing(next, lines[1..], now, i - 1);
    }
  }

  // ----- The per-category summary -----

  /** One entry of a group's `items` list. */
  datatype ItemView = ItemView(name: string, currentStock: int, threshold: int, isLowStock: bool)

  function View(item: Item): ItemView
  {
    ItemView(item.name, item.currentStock, item.threshold, IsLowStock(item))
  }

  function Views(docs: seq<Item>): (r: seq<ItemView>)
    ensures |r| == |docs|
    ensures forall i :: 0 <= i < |r| ==> r[i] == View(docs[i])
  {
    if |docs| == 0 then [] else [View(docs[0])] + Views(docs[1..])
  }

  /** One `$group` bucket: availability plays no part. */
  datatype CategorySummary = CategorySummary(
    category: Category,
    totalItems: nat,
    lowStockItems: nat,
    totalStock: int,
    items: seq<ItemView>)

  function Stock(item: Item): int
  {
    item.currentStock
  }

  function InCat(c: Category): Item -> bool
  {
    (x: Item) => x.category == c
  }

  function LowIn(c: Category): Item -> bool
  {
    (x: Item) => x.category == c && IsLowStock(x)
  }

  /** The bucket of category `c`: how many documents it has, how many of
      those are at or below threshold, their summed stock, and one view per
      document whose low flag agrees with the `$lte` comparison. */
  function SummaryOf(docs: seq<Item>, c: Category): (s: CategorySummary)
    ensures s.category == c
    ensures s.totalItems == Seqs.Count(docs, InCat(c))
    ensures s.lowStockItems == Seqs.Count(docs, LowIn(c))
    ensures s.lowStockItems <= s.totalItems
    ensures s.totalStock == Seqs.SumWhere(docs, InCat(c), Stock)
    ensures |s.items| == s.totalItems
    ensures s.items == Views(Seqs.Filter(docs, InCat(c)))
    ensures forall i :: 0 <= i < |s.items| ==> (s.items[i].isLowStock <==> s.items[i].currentStock <= s.items[i].threshold)
  {
    var members := Seqs.Filter(docs, InCat(c));
    FilterConj(docs, c);
    Seqs.CountIsFilterLength(docs, InCat(c));
    Seqs.CountIsFilterLength(docs, LowIn(c));
    var low := Seqs.Filter(members, IsLowStock);
    CategorySummary(c, |members|, |low|, Seqs.Sum(members, Stock), Views(members))
  }

  lemma {:induction false} FilterConj(docs: seq<Item>, c: Category)
    ensures Seqs.Filter(Seqs.Filter(docs, InCat(c)), IsLowStock)
            == Seqs.Filter(docs, LowIn(c))
  {
    if |docs| > 0 {
      FilterConj(docs[1..], c);
    }
  }

  function TotalItems(g: CategorySummary): int
  {
    g.totalItems
  }

  function TotalStock(g: CategorySummary): int
  {
    g.totalStock
  }

  const Categories: seq<Category> := [Base, Sauce, Cheese, Veggies, Meat]

  lemma {:induction false} CategoriesListed(c: Category)
    ensures c in Categories
  {
  }

  /** Whether category `c` has at least one document. */
  function Present(docs: seq<Item>): Category -> bool
  {
    (c: Category) => Seqs.Count(docs, InCat(c)) > 0
  }

  /** The buckets of `cats`, in that order. */
  function Summaries(docs: seq<Item>, cats: seq<Category>): (r: seq<CategorySummary>)
    ensures |r| == |cats|
    ensures forall i :: 0 <= i < |r| ==> r[i] == SummaryOf(docs, cats[i])
  {
    if |cats| == 0 then [] else [SummaryOf(docs, cats[0])] + Summaries(docs, cats[1..])
  }

  /** `getInventorySummary`: the buckets of the categories that have at
      least one document. Buckets come in category order here; the store
      promises none. */
  function InventorySummary(docs: seq<Item>): seq<CategorySummary>
  {
    Summaries(docs, Seqs.Filter(Categories, Present(docs)))
  }

  /** Every bucket is non-empty and is the summary of its own category. */
  lemma {:induction false} SummaryBuckets(docs: seq<Item>)
    ensures forall g | g in InventorySummary(docs) :: g.totalItems > 0 && g == SummaryOf(docs, g.category)
  {
    var cats := Seqs.Filter(Categories, Present(docs));
    var r := Summaries(docs, cats);
    forall g | g in r
      ensures g.totalItems > 0 && g == SummaryOf(docs, g.category)
    {
      var i :| 0 <= i < |r| && r[i] == g;
      assert Present(docs)(cats[i]);
    }
  }

  /** A category has a bucket exactly when some document is in it. */
  lemma {:induction false} SummaryHasCategory(docs: seq<Item>, c: Category)
    ensures (exists i :: 0 <= i < |docs| && docs[i].category == c) <==> SummaryOf(docs, c) in InventorySummary(docs)
  {
    if exists i :: 0 <= i < |docs| && docs[i].category == c {
      var i :| 0 <= i < |docs| && docs[i].category == c;
      PresentHasBucket(docs, c, i);
    } else if SummaryOf(docs, c) in InventorySummary(docs) {
      BucketIsPresent(docs, c);
      assert false;
    }
  }

  lemma {:induction false} PresentHasBucket(docs: seq<Item>, c: Category, i: nat)
    requires i < |docs| && docs[i].category == c
    ensures SummaryOf(docs, c) in InventorySummary(docs)
  {
    var cats := Seqs.Filter(Categories, Present(docs));
    CategoriesListed(c);
    assert InCat(c)(docs[i]);
    assert c in cats;
    var j :| 0 <= j < |cats| && cats[j] == c;
    assert Summaries(docs, cats)[j] == SummaryOf(docs, c);
  }

  lemma {:induction false} BucketIsPresent(docs: seq<Item>, c: Category)
    requires SummaryOf(docs, c) in InventorySummary(docs)
    ensures exists i :: 0 <= i < |docs| && docs[i].category == c
  {
    var cats := Seqs.Filter(Categories, Present(docs));
    var r := Summaries(docs, cats);
    var j :| 0 <= j < |r| && r[j] == SummaryOf(docs, c);
    assert cats[j] == c;
    assert Present(docs)(c);
    assert !forall k :: 0 <= k < |docs| ==> !InCat(c)(docs[k]);
  }

  function CatItems(docs: seq<Item>): Category -> int
  {
    (c: Category) => Seqs.Count(docs, InCat(c))
  }

  function CatStock(docs: seq<Item>): Category -> int
  {
    (c: Category) => Seqs.SumWhere(docs, InCat(c), Stock)
  }

  /** The buckets partition the documents: their counts add up to the
      number of documents and their stocks to the total stock. */
  lemma {:induction false} SummaryPartition(docs: seq<Item>)
    ensures Seqs.Sum(InventorySummary(docs), TotalItems) == |docs|
    ensures Seqs.Sum(InventorySummary(docs), TotalStock) == Seqs.Sum(docs, Stock)
  {
    var cats := Seqs.Filter(Categories, Present(docs));
    SumSummaries(docs, cats);
    AbsentCategoriesAddNothing(docs);
    AllCategoriesPartition(docs);
  }

  lemma {:induction false} AbsentCategoriesAddNothing(docs: seq<Item>)
    ensures Seqs.Sum(Seqs.Filter(Categories, Present(docs)), CatItems(docs)) == Seqs.Sum(Categories, CatItems(docs))
    ensures Seqs.Sum(Seqs.Filter(Categories, Present(docs)), CatStock(docs)) == Seqs.Sum(Categories, CatStock(docs))
  {
    forall i | 0 <= i < |Categories| && !Present(docs)(Categories[i])
      ensures CatItems(docs)(Categories[i]) == 0 && CatStock(docs)(Categories[i]) == 0
    {
      EmptyGroupHasNoStock(docs, Categories[i]);
    }
    Seqs.SumFilterZero(Categories, Present(docs), CatItems(docs));
    Seqs.SumFilterZero(Categories, Present(docs), CatStock(docs));
  }

  lemma {:induction false} AllCategoriesPartition(docs: seq<Item>)
    ensures Seqs.Sum(Categories, CatItems(docs)) == |docs|
    ensures Seqs.Sum(Categories, CatStock(docs)) == Seqs.Sum(docs, Stock)
  {
    SumCategories(CatItems(docs));
    CountsByCategory(docs);
    SumCategories(CatStock(docs));
    StockByCategory(docs);
  }

  /** A sum over the category list is the sum of its five terms. */
  lemma {:induction false} SumCategories(f: Category -> int)
    ensures Seqs.Sum(Categories, f) == f(Base) + f(Sauce) + f(Cheese) + f(Veggies) + f(Meat)
  {
    SumFive(Categories, f);
  }

  lemma {:induction false} SumSummaries(docs: seq<Item>, cats: seq<Category>)
    ensures Seqs.Sum(Summaries(docs, cats), TotalItems) == Seqs.Sum(cats, CatItems(docs))
    ensures Seqs.Sum(Summaries(docs, cats), TotalStock) == Seqs.Sum(cats, CatStock(docs))
  {
    if |cats| > 0 {
      var r := Summaries(docs, cats);
      assert r[1..] == Summaries(docs, cats[1..]);
      SumSummaries(docs, cats[1..]);
      assert TotalItems(r[0]) == CatItems(docs)(cats[0]);
      assert TotalStock(r[0]) == CatStock(docs)(cats[0]);
    }
  }

  lemma {:induction false} EmptyGroupHasNoStock(docs: seq<Item>, c: Category)
    requires SummaryOf(docs, c).totalItems == 0
    ensures SummaryOf(docs, c).totalStock == 0
  {
    assert Seqs.Filter(docs, InCat(c)) == [];
  }

  lemma {:induction false} SumFive<T>(all: seq<T>, f: T -> int)
    requires |all| == 5
    ensures Seqs.Sum(all, f) == f(all[0]) + f(all[1]) + f(all[2]) + f(all[3]) + f(all[4])
  {
    var s1 := all[1..];
    var s2 := s1[1..];
    var s3 := s2[1..];
    var s4 := s3[1..];
    assert s4[1..] == [];
    assert Seqs.Sum(s4, f) == f(all[4]);
    assert Seqs.Sum(s3, f) == f(all[3]) + Seqs.Sum(s4, f);
    assert Seqs.Sum(s2, f) == f(all[2]) + Seqs.Sum(s3, f);
    assert Seqs.Sum(s1, f) == f(all[1]) + Seqs.Sum(s2, f);
  }

  /** Each document falls in exactly one category. */
  lemma {:induction false} CountsByCategory(docs: seq<Item>)
    ensures Seqs.Count(docs, InCat(Base)) + Seqs.Count(docs, InCat(Sauce))
            + Seqs.Count(docs, InCat(Cheese)) + Seqs.Count(docs, InCat(Veggies))
            + Seqs.Count(docs, InCat(Meat)) == |docs|
  {
    if |docs| > 0 {
      CountsByCategory(docs[1..]);
    }
  }

  /** Each unit of stock is counted in exactly one category. */
  lemma {:induction false} StockByCategory(docs: seq<Item>)
    ensures Seqs.SumWhere(docs, InCat(Base), Stock) + Seqs.SumWhere(docs, InCat(Sauce), Stock)
            + Seqs.SumWhere(docs, InCat(Cheese), Stock) + Seqs.SumWhere(docs, InCat(Veggies), Stock)
            + Seqs.SumWhere(docs, InCat(Meat), Stock) == Seqs.Sum(docs, Stock)
  {
    if |docs| > 0 {
      StockByCategory(docs[1..]);
      Seqs.SumWhereStep(docs, InCat(Base), Stock);
      Seqs.SumWhereStep(docs, InCat(Sauce), Stock);
      Seqs.SumWhereStep(docs, InCat(Cheese), Stock);
      Seqs.SumWhereStep(docs, InCat(Veggies), Stock);
      Seqs.SumWhereStep(docs, InCat(Meat), Stock);
    }
  }
}
