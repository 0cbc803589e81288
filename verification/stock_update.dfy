/**
 * The stock side of payment confirmation: for every line item, in listed
 * order, a conditional decrement "stock >= quantity, then stock -= quantity"
 * on the product named by the item, stopping at the first product that is
 * missing or short. `Demand` and `Sufficient` give the order-independent
 * reading of the same walk.
 */
module StockUpdate {
  import opened Wrappers
  import opened ProductSchema
  import opened OrderSchema

  type Inventory = map<ProductId, Product>

  /**
   * `findOneAndUpdate({productId: p, stock: {$gte: q}}, {$inc: {stock: -q}})`:
   * succeeds exactly when the product exists with at least `q` in stock, and
   * then lowers that one counter by `q`, never below zero.
   */
  function ConditionalDecrement(products: Inventory, p: ProductId, q: nat): (r: Option<Inventory>)
    ensures r.Some? <==> p in products && products[p].stock >= q
    ensures r.Some? ==> r.value.Keys == products.Keys
    ensures r.Some? ==> r.value[p] == products[p].(stock := products[p].stock - q) && r.value[p].stock >= 0
    ensures r.Some? ==> forall x :: x in products && x != p ==> r.value[x] == products[x]
  {
    if p in products && products[p].stock >= q then
      Some(products[p := products[p].(stock := products[p].stock - q)])
    else
      None
  }

  datatype StockResult = Applied(products: Inventory) | Short(productId: ProductId)

  /** The item loop: decrement item by item; the first failing item names the product. */
  function ApplyItems(items: seq<LineItem>, products: Inventory): (r: StockResult)
    ensures r.Applied? ==> r.products.Keys == products.Keys
    ensures r.Short? ==> exists k :: 0 <= k < |items| && items[k].productId == r.productId
  {
    if items == [] then Applied(products)
    else match ConditionalDecrement(products, items[0].productId, items[0].quantity)
      case None => Short(items[0].productId)
      case Some(next) =>
        var r := ApplyItems(items[1..], next);
        assert r.Short? ==> exists k :: 0 <= k < |items| && items[k].productId == r.productId by {
          if r.Short? {
            var k :| 0 <= k < |items[1..]| && items[1..][k].productId == r.productId;
            assert items[k + 1].productId == r.productId;
          }
        }
        r
  }

  /** The total quantity the items ask of product `p`. */
  function Demand(items: seq<LineItem>, p: ProductId): nat {
    if items == [] then 0
    else (if items[0].productId == p then items[0].quantity else 0) + Demand(items[1..], p)
  }

  /** Every product the items name exists and holds at least the total asked of it. */
  predicate Sufficient(items: seq<LineItem>, products: Inventory) {
    forall k :: 0 <= k < |items| ==>
      items[k].productId in products && Demand(items, items[k].productId) <= products[items[k].productId].stock
  }

  /** Some item names product `p`. */
  predicate Names(items: seq<LineItem>, p: ProductId) {
    exists k :: 0 <= k < |items| && items[k].productId == p
  }

  /** Items that never name `p` ask nothing of it. */
  lemma {:induction false} DemandOfUnnamed(items: seq<LineItem>, p: ProductId)
    requires forall k :: 0 <= k < |items| ==> items[k].productId != p
    ensures Demand(items, p) == 0
  {
    if items != [] {
      assert items[0].productId != p;
      forall k | 0 <= k < |items[1..]| ensures items[1..][k].productId != p {
        assert items[1..][k] == items[k + 1];
      }
      DemandOfUnnamed(items[1..], p);
    }
  }

  /** Demand is additive over concatenation. */
  lemma {:induction false} DemandAppend(a: seq<LineItem>, b: seq<LineItem>, p: ProductId)
    ensures Demand(a + b, p) == Demand(a, p) + Demand(b, p)
  {
    if a == [] {
      assert a + b == b;
    } else {
      assert (a + b)[0] == a[0] && (a + b)[1..] == a[1..] + b;
      DemandAppend(a[1..], b, p);
    }
  }

  /**
   * One step of the item loop: when the stock stands at its starting value minus
   * the demand of the first `k` items and item `k` is decremented, it stands at
   * the starting value minus the demand of the first `k + 1`, and the rest of
   * the walk continues from the new counters.
   */
  lemma DecrementStep(items: seq<LineItem>, k: nat, start: Inventory, products: Inventory, next: Inventory)
    requires k < |items|
    requires products.Keys == start.Keys
    requires forall p :: p in products ==> products[p].stock == start[p].stock - Demand(items[..k], p)
    requires ConditionalDecrement(products, items[k].productId, items[k].quantity) == Some(next)
    ensures next.Keys == start.Keys
    ensures forall p :: p in next ==> next[p].stock == start[p].stock - Demand(items[..k + 1], p)
    ensures ApplyItems(items[k..], products) == ApplyItems(items[k + 1..], next)
  {
    assert items[..k + 1] == items[..k] + [items[k]];
    assert items[k..][0] == items[k] && items[k..][1..] == items[k + 1..];
    forall p | p in next
      ensures next[p].stock == start[p].stock - Demand(items[..k + 1], p)
    {
      DemandAppend(items[..k], [items[k]], p);
    }
  }

  /**
   * One step of the walk: the items are satisfiable from `products` exactly when
   * the first decrement succeeds and the rest are satisfiable from what it leaves.
   */
  lemma SufficientUnfold(items: seq<LineItem>, products: Inventory)
    requires items != []
    ensures Sufficient(items, products) <==>
      var step := ConditionalDecrement(products, items[0].productId, items[0].quantity);
      step.Some? && Sufficient(items[1..], step.value)
  {
    var p0, q0 := items[0].productId, items[0].quantity;
    var tail := items[1..];
    var step := ConditionalDecrement(products, p0, q0);
    assert forall k :: 0 <= k < |tail| ==> tail[k] == items[k + 1];
    if Sufficient(items, products) {
      assert p0 in products && Demand(items, p0) <= products[p0].stock;
      assert step.Some?;
      forall k | 0 <= k < |tail|
        ensures tail[k].productId in step.value && Demand(tail, tail[k].productId) <= step.value[tail[k].productId].stock
      {
        var x := tail[k].productId;
        assert items[k + 1].productId == x;
      }
    }
    if step.Some? && Sufficient(tail, step.value) {
      forall k | 0 <= k < |items|
        ensures items[k].productId in products && Demand(items, items[k].productId) <= products[items[k].productId].stock
      {
        var x := items[k].productId;
        if k > 0 {
          assert tail[k - 1].productId == x;
        } else if exists j :: 0 <= j < |tail| && tail[j].productId == p0 {
          var j :| 0 <= j < |tail| && tail[j].productId == p0;
          assert Demand(tail, p0) <= step.value[p0].stock;
        } else {
          DemandOfUnnamed(tail, p0);
        }
      }
    }
  }

  /** The walk succeeds exactly when the items are satisfiable (all-or-nothing). */
  lemma {:induction false} ApplyItemsSucceedsIff(items: seq<LineItem>, products: Inventory)
    ensures ApplyItems(items, products).Applied? <==> Sufficient(items, products)
  {
    if items != [] {
      SufficientUnfold(items, products);
      var step := ConditionalDecrement(products, items[0].productId, items[0].quantity);
      if step.Some? {
        ApplyItemsSucceedsIff(items[1..], step.value);
      }
    }
  }

  /**
   * On success each product's counter drops by exactly the total its items ask
   * for; every other field of every product, and every unnamed product, is kept.
   */
  lemma {:induction false} ApplyItemsEffect(items: seq<LineItem>, products: Inventory)
    requires ApplyItems(items, products).Applied?
    ensures var after := ApplyItems(items, products).products;
      after.Keys == products.Keys &&
      forall p :: p in products ==> after[p] == products[p].(stock := products[p].stock - Demand(items, p))
  {
    if items != [] {
      var step := ConditionalDecrement(products, items[0].productId, items[0].quantity);
      ApplyItemsEffect(items[1..], step.value);
    }
  }

  /**
   * On failure the walk names the product of the first item at which the
   * items seen so far stop being satisfiable.
   */
  lemma {:induction false} ApplyItemsFailure(items: seq<LineItem>, products: Inventory)
    requires ApplyItems(items, products).Short?
    ensures var p := ApplyItems(items, products).productId;
      exists k :: 0 <= k < |items| && items[k].productId == p &&
        Sufficient(items[..k], products) && !Sufficient(items[..k + 1], products)
  {
    var p := ApplyItems(items, products).productId;
    var step := ConditionalDecrement(products, items[0].productId, items[0].quantity);
    SufficientUnfold(items[..1], products);
    if step.None? {
      assert items[..0] == [];
      assert items[0].productId == p;
    } else {
      ApplyItemsFailure(items[1..], step.value);
      var k :| 0 <= k < |items[1..]| && items[1..][k].productId == p &&
        Sufficient(items[1..][..k], step.value) && !Sufficient(items[1..][..k + 1], step.value);
      assert items[..k + 1][1..] == items[1..][..k];
      assert items[..k + 2][1..] == items[1..][..k + 1];
      SufficientUnfold(items[..k + 1], products);
      SufficientUnfold(items[..k + 2], products);
      assert items[k + 1].productId == p;
    }
  }

  /**
   * No stock goes negative: every named product ends at or above zero, and a
   * store without negative counters keeps none.
   */
  lemma ApplyItemsKeepsStockNonNegative(items: seq<LineItem>, products: Inventory)
    requires ApplyItems(items, products).Applied?
    ensures var after := ApplyItems(items, products).products;
      (forall k :: 0 <= k < |items| ==> items[k].productId in after && after[items[k].productId].stock >= 0) &&
      ((forall p :: p in products ==> products[p].stock >= 0) ==> forall p :: p in after ==> after[p].stock >= 0)
  {
    ApplyItemsSucceedsIff(items, products);
    ApplyItemsEffect(items, products);
    var after := ApplyItems(items, products).products;
    forall p | p in after && (forall x :: x in products ==> products[x].stock >= 0)
      ensures after[p].stock >= 0
    {
      if !(exists k :: 0 <= k < |items| && items[k].productId == p) {
        DemandOfUnnamed(items, p);
      }
    }
  }

  /** Demand of `b` splits into item `j`'s share and the demand of the others. */
  lemma DemandRemove(b: seq<LineItem>, j: nat, p: ProductId)
    requires j < |b|
    ensures Demand(b, p) == (if b[j].productId == p then b[j].quantity else 0) + Demand(b[..j] + b[j + 1..], p)
  {
    assert b == (b[..j] + [b[j]]) + b[j + 1..];
    DemandAppend(b[..j] + [b[j]], b[j + 1..], p);
    DemandAppend(b[..j], [b[j]], p);
    DemandAppend(b[..j], b[j + 1..], p);
    assert [b[j]][1..] == [];
  }

  /**
   * Two sequences with the same elements: `a[0]` sits at some position `j` of
   * `b`, and dropping it from both leaves sequences with the same elements.
   */
  lemma MultisetRemove<T>(a: seq<T>, b: seq<T>) returns (j: nat)
    requires a != [] && multiset(a) == multiset(b)
    ensures j < |b| && b[j] == a[0]
    ensures multiset(a[1..]) == multiset(b[..j] + b[j + 1..])
  {
    assert a == [a[0]] + a[1..];
    assert multiset(a) == multiset{a[0]} + multiset(a[1..]);
    assert a[0] in multiset(b);
    j :| 0 <= j < |b| && b[j] == a[0];
    assert b == b[..j] + ([b[j]] + b[j + 1..]);
    assert multiset(b) == multiset(b[..j]) + multiset{b[j]} + multiset(b[j + 1..]);
    assert multiset(b[..j] + b[j + 1..]) == multiset(b[..j]) + multiset(b[j + 1..]);
    assert multiset(a[1..]) == multiset(a) - multiset{a[0]};
    assert multiset(b[..j] + b[j + 1..]) == multiset(b) - multiset{b[j]};
  }

  /** Demand does not depend on the order of the items. */
  lemma {:induction false} DemandPermutation(a: seq<LineItem>, b: seq<LineItem>, p: ProductId)
    requires multiset(a) == multiset(b)
    ensures Demand(a, p) == Demand(b, p)
    decreases |a|
  {
    if a == [] {
      assert |b| == |multiset(b)| == 0;
    } else {
      var j := MultisetRemove(a, b);
      var rest := b[..j] + b[j + 1..];
      DemandPermutation(a[1..], rest, p);
      DemandRemove(b, j, p);
    }
  }

  /** Satisfiability does not depend on the order of the items. */
  lemma SufficientPermutation(a: seq<LineItem>, b: seq<LineItem>, products: Inventory)
    requires multiset(a) == multiset(b)
    requires Sufficient(a, products)
    ensures Sufficient(b, products)
  {
    forall k | 0 <= k < |b|
      ensures b[k].productId in products && Demand(b, b[k].productId) <= products[b[k].productId].stock
    {
      assert b[k] in multiset(a);
      var k' :| 0 <= k' < |a| && a[k'] == b[k];
      DemandPermutation(a, b, b[k].productId);
    }
  }

  /**
   * The walk's outcome does not depend on the order of the items: two orderings
   * of the same items both succeed or both fail, and on success leave the same
   * counters.
   */
  lemma ApplyItemsOrderIndependent(a: seq<LineItem>, b: seq<LineItem>, products: Inventory)
    requires multiset(a) == multiset(b)
    ensures ApplyItems(a, products).Applied? <==> ApplyItems(b, products).Applied?
    ensures ApplyItems(a, products).Applied? ==> ApplyItems(a, products).products == ApplyItems(b, products).products
  {
    ApplyItemsSucceedsIff(a, products);
    ApplyItemsSucceedsIff(b, products);
    if Sufficient(a, products) {
      SufficientPermutation(a, b, products);
    }
    if Sufficient(b, products) {
      SufficientPermutation(b, a, products);
    }
    if ApplyItems(a, products).Applied? {
      AppliedPermutationSameCounters(a, b, products);
    }
  }

  /** Two successful walks over the same items in different orders leave the same counters. */
  lemma AppliedPermutationSameCounters(a: seq<LineItem>, b: seq<LineItem>, products: Inventory)
    requires multiset(a) == multiset(b)
    requires ApplyItems(a, products).Applied? && ApplyItems(b, products).Applied?
    ensures ApplyItems(a, products).products == ApplyItems(b, products).products
  {
    var after, after' := ApplyItems(a, products).products, ApplyItems(b, products).products;
    ApplyItemsEffect(a, products);
    ApplyItemsEffect(b, products);
    forall p | p in after ensures after[p] == after'[p] {
      DemandPermutation(a, b, p);
    }
  }

  /**
   * Two walks in a row: when `a` was satisfiable from `products`, `after` is
   * `products` less the demand of `a`, and `b` is satisfiable from `after`, then
   * every product either names covered both demands at the start.
   */
  lemma SufficientInSequence(a: seq<LineItem>, b: seq<LineItem>, products: Inventory, after: Inventory)
    requires Sufficient(a, products)
    requires after.Keys == products.Keys
    requires forall p :: p in products ==> after[p].stock == products[p].stock - Demand(a, p)
    requires Sufficient(b, after)
    ensures forall p :: Names(a, p) || Names(b, p) ==>
      p in products && Demand(a, p) + Demand(b, p) <= products[p].stock
  {
    forall p | Names(a, p) || Names(b, p)
      ensures p in products && Demand(a, p) + Demand(b, p) <= products[p].stock
    {
      if Names(b, p) {
        var k :| 0 <= k < |b| && b[k].productId == p;
        CoveredWhenNamedSecond(a, b, products, after, k);
      } else {
        var k :| 0 <= k < |a| && a[k].productId == p;
        CoveredWhenNamedFirstOnly(a, b, products, k);
      }
    }
  }

  /** A product the second walk names: its stock after the first covered the second demand. */
  lemma CoveredWhenNamedSecond(a: seq<LineItem>, b: seq<LineItem>, products: Inventory, after: Inventory, k: nat)
    requires k < |b|
    requires after.Keys == products.Keys
    requires forall p :: p in products ==> after[p].stock == products[p].stock - Demand(a, p)
    requires Sufficient(b, after)
    ensures b[k].productId in products && Demand(a, b[k].productId) + Demand(b, b[k].productId) <= products[b[k].productId].stock
  {
    var p := b[k].productId;
    assert p in after && Demand(b, p) <= after[p].stock;
  }

  /** A product only the first walk names: the second asks nothing of it. */
  lemma CoveredWhenNamedFirstOnly(a: seq<LineItem>, b: seq<LineItem>, products: Inventory, k: nat)
    requires k < |a|
    requires Sufficient(a, products)
    requires forall j :: 0 <= j < |b| ==> b[j].productId != a[k].productId
    ensures a[k].productId in products && Demand(a, a[k].productId) + Demand(b, a[k].productId) <= products[a[k].productId].stock
  {
    DemandOfUnnamed(b, a[k].productId);
  }
}
