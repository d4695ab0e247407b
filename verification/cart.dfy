/**
 * The shopping-cart view: the ids in a session's cart are resolved against
 * the catalog and grouped into one order line per distinct item, and the
 * subtotals are added into the total cost.
 */
module Cart {
  import opened Wrappers

  /**
   * A catalog item; `price` is in cents so that sums are exact. The cart
   * refers to an item by its key in the catalog, so `id` is informative only.
   */
  datatype Item = Item(id: int, commonName: string, price: int)

  /** The catalog: items by id. */
  type Catalog = map<int, Item>

  /** One row of the cart view: the id it is grouped under and its price, name, quantity and subtotal. */
  datatype OrderLine = OrderLine(id: int, name: string, price: int, quantity: nat, subtotal: int)

  /** What the cart page shows: the order lines and the total cost. */
  datatype CartView = CartView(lines: seq<OrderLine>, totalCost: int)

  /** The catalog lookup of a cart id failed. */
  datatype CartError = NoSuchItem(id: int)

  /** How many times `id` occurs in `cart`: the units of that item bought. */
  function Count(cart: seq<int>, id: int): nat
  {
    multiset(cart)[id]
  }

  /** The distinct ids of `cart`, in the order of their first occurrence. */
  function Distinct(cart: seq<int>): (d: seq<int>)
    ensures forall id :: id in d <==> id in cart
  {
    if cart == [] then []
    else
      var prefix := cart[..|cart| - 1];
      var d := Distinct(prefix);
      assert cart == prefix + [cart[|cart| - 1]];
      if cart[|cart| - 1] in d then d else d + [cart[|cart| - 1]]
  }

  /** Distinct lists no id twice. */
  lemma {:induction false} DistinctUnique(cart: seq<int>)
    ensures forall i, j :: 0 <= i < j < |Distinct(cart)| ==> Distinct(cart)[i] != Distinct(cart)[j]
  {
    if cart != [] {
      DistinctUnique(cart[..|cart| - 1]);
    }
  }

  /** Every id of the cart resolves in the catalog. */
  predicate InCatalog(cart: seq<int>, catalog: Catalog)
  {
    forall id :: id in cart ==> id in catalog
  }

  /** The price of every unit in the cart, added up. */
  function CartTotal(cart: seq<int>, catalog: Catalog): int
    requires InCatalog(cart, catalog)
  {
    if cart == [] then 0
    else
      var x := cart[|cart| - 1];
      assert x in cart;
      CartTotal(cart[..|cart| - 1], catalog) + catalog[x].price
  }

  /** The order line that item `id` should have for `cart`. */
  function LineFor(cart: seq<int>, catalog: Catalog, id: int): OrderLine
    requires id in catalog
  {
    var q := Count(cart, id);
    OrderLine(id, catalog[id].commonName, catalog[id].price, q, q * catalog[id].price)
  }

  /**
   * The order lines of `cart`: exactly one line per distinct id of the cart,
   * whose quantity is the number of times the id occurs, whose price and name
   * are the catalog's, and whose subtotal is quantity times price.
   */
  function Aggregate(cart: seq<int>, catalog: Catalog): (lines: seq<OrderLine>)
    requires InCatalog(cart, catalog)
    ensures forall id :: id in cart <==> exists i :: 0 <= i < |lines| && lines[i].id == id
    ensures forall i, j :: 0 <= i < j < |lines| ==> lines[i].id != lines[j].id
    ensures forall i :: 0 <= i < |lines| ==>
              && lines[i].id in catalog
              && lines[i].quantity == multiset(cart)[lines[i].id] >= 1
              && lines[i].price == catalog[lines[i].id].price
              && lines[i].name == catalog[lines[i].id].commonName
              && lines[i].subtotal == lines[i].quantity * lines[i].price
  {
    var d := Distinct(cart);
    DistinctUnique(cart);
    var lines := seq(|d|, i requires 0 <= i < |d| => LineFor(cart, catalog, d[i]));
    assert forall i :: 0 <= i < |lines| ==> lines[i].id == d[i] && d[i] in cart;
    assert forall id :: id in cart ==> exists i :: 0 <= i < |lines| && lines[i].id == id by {
      forall id | id in cart ensures exists i :: 0 <= i < |lines| && lines[i].id == id {
        var i :| 0 <= i < |d| && d[i] == id;
        assert lines[i].id == id;
      }
    }
    lines
  }

  function SumSubtotals(lines: seq<OrderLine>): int
  {
    if lines == [] then 0 else SumSubtotals(lines[..|lines| - 1]) + lines[|lines| - 1].subtotal
  }

  function SumQuantities(lines: seq<OrderLine>): int
  {
    if lines == [] then 0 else SumQuantities(lines[..|lines| - 1]) + lines[|lines| - 1].quantity
  }

  /** The sum over `ids` of each id's count in `cart` times its weight. */
  function Grouped(ids: seq<int>, cart: seq<int>, w: int -> int): int
  {
    if ids == [] then 0
    else Grouped(ids[..|ids| - 1], cart, w) + Count(cart, ids[|ids| - 1]) * w(ids[|ids| - 1])
  }

  /** The sum over `cart` of each element's weight. */
  function Ungrouped(cart: seq<int>, w: int -> int): int
  {
    if cart == [] then 0 else Ungrouped(cart[..|cart| - 1], w) + w(cart[|cart| - 1])
  }

  /** One more unit adds one more weight; kept apart so that the multiplication stays out of GroupedAppend's context. */
  lemma UnitMore(n: int, v: int)
    ensures (n + 1) * v == n * v + v
  {
  }

  /** One more unit of `x` adds `w(x)` to a grouped sum over distinct ids that include `x`, and nothing otherwise. */
  lemma {:induction false} GroupedAppend(ids: seq<int>, cart: seq<int>, x: int, w: int -> int)
    requires forall i, j :: 0 <= i < j < |ids| ==> ids[i] != ids[j]
    ensures Grouped(ids, cart + [x], w) == Grouped(ids, cart, w) + (if x in ids then w(x) else 0)
  {
    if ids != [] {
      var prefix, y := ids[..|ids| - 1], ids[|ids| - 1];
      assert ids == prefix + [y];
      GroupedAppend(prefix, cart, x, w);
      var c, c' := Count(cart, y), Count(cart + [x], y);
      assert c' == c + (if x == y then 1 else 0) by {
        assert (cart + [x])[..|cart|] == cart;
      }
      assert Grouped(ids, cart + [x], w) == Grouped(prefix, cart + [x], w) + c' * w(y);
      assert Grouped(ids, cart, w) == Grouped(prefix, cart, w) + c * w(y);
      if x == y {
        assert x !in prefix;
        UnitMore(c, w(y));
      } else {
        assert c' == c;
        assert x in ids <==> x in prefix;
      }
    }
  }

  /** Grouping by distinct id does not change a weighted sum over the cart. */
  lemma {:induction false} GroupedIsUngrouped(cart: seq<int>, w: int -> int)
    ensures Grouped(Distinct(cart), cart, w) == Ungrouped(cart, w)
  {
    if cart != [] {
      var prefix, x := cart[..|cart| - 1], cart[|cart| - 1];
      var d := Distinct(prefix);
      GroupedIsUngrouped(prefix, w);
      assert Ungrouped(cart, w) == Grouped(d, prefix, w) + w(x);
      DistinctUnique(prefix);
      GroupedAppend(d, prefix, x, w);
      assert cart == prefix + [x];
      if x !in d {
        assert Grouped(d + [x], cart, w) == Grouped(d, prefix, w) + w(x) by {
          assert (d + [x])[..|d|] == d;
          assert Count(cart, x) == 1 by {
            assert x !in prefix;
          }
        }
      }
    }
  }

  /** Summing order lines for `ids` is the grouped sum over `ids`, by units and by price. */
  lemma {:induction false} LineSums(lines: seq<OrderLine>, ids: seq<int>, cart: seq<int>, catalog: Catalog)
    requires |lines| == |ids|
    requires forall i :: 0 <= i < |ids| ==> ids[i] in catalog && lines[i] == LineFor(cart, catalog, ids[i])
    ensures SumQuantities(lines) == Grouped(ids, cart, Unit)
    ensures SumSubtotals(lines) == Grouped(ids, cart, PriceOf(catalog))
  {
    if lines != [] {
      var k := |lines| - 1;
      LineSums(lines[..k], ids[..k], cart, catalog);
      assert PriceOf(catalog)(ids[k]) == catalog[ids[k]].price;
    }
  }

  /** The weight that counts units. */
  function Unit(id: int): int
  {
    1
  }

  /** The price of an id, 0 for one the catalog does not have. */
  function PriceOf(catalog: Catalog): int -> int
  {
    id => if id in catalog then catalog[id].price else 0
  }

  lemma {:induction false} CartTotalUngrouped(cart: seq<int>, catalog: Catalog)
    requires InCatalog(cart, catalog)
    ensures CartTotal(cart, catalog) == Ungrouped(cart, PriceOf(catalog))
  {
    if cart != [] {
      var prefix, x := cart[..|cart| - 1], cart[|cart| - 1];
      assert cart == prefix + [x];
      CartTotalUngrouped(prefix, catalog);
      assert x in cart;
      assert PriceOf(catalog)(x) == catalog[x].price;
    }
  }

  lemma {:induction false} UngroupedUnits(cart: seq<int>)
    ensures Ungrouped(cart, Unit) == |cart|
  {
    if cart != [] {
      UngroupedUnits(cart[..|cart| - 1]);
    }
  }

  /** The quantities of the order lines add up to the number of ids in the cart. */
  lemma QuantitiesCoverCart(cart: seq<int>, catalog: Catalog)
    requires InCatalog(cart, catalog)
    ensures SumQuantities(Aggregate(cart, catalog)) == |cart|
  {
    var lines, d := Aggregate(cart, catalog), Distinct(cart);
    assert forall i :: 0 <= i < |d| ==> d[i] in cart && lines[i] == LineFor(cart, catalog, d[i]);
    LineSums(lines, d, cart, catalog);
    GroupedIsUngrouped(cart, Unit);
    UngroupedUnits(cart);
  }

  /** The subtotals of the order lines add up to the price of every unit in the cart. */
  lemma SubtotalsCoverCart(cart: seq<int>, catalog: Catalog)
    requires InCatalog(cart, catalog)
    ensures SumSubtotals(Aggregate(cart, catalog)) == CartTotal(cart, catalog)
  {
    var lines, d := Aggregate(cart, catalog), Distinct(cart);
    assert forall i :: 0 <= i < |d| ==> d[i] in cart && lines[i] == LineFor(cart, catalog, d[i]);
    LineSums(lines, d, cart, catalog);
    GroupedIsUngrouped(cart, PriceOf(catalog));
    CartTotalUngrouped(cart, catalog);
  }

  /** Adding one id to the cart adds one unit of that item and its price to the total, and nothing else. */
  lemma AddOneUnit(cart: seq<int>, catalog: Catalog, id: int)
    requires InCatalog(cart, catalog) && id in catalog
    ensures InCatalog(cart + [id], catalog)
    ensures Count(cart + [id], id) == Count(cart, id) + 1
    ensures forall other :: other != id ==> Count(cart + [id], other) == Count(cart, other)
    ensures CartTotal(cart + [id], catalog) == CartTotal(cart, catalog) + catalog[id].price
  {
    assert (cart + [id])[..|cart|] == cart;
  }

  /** One more id in the cart changes only the line of that id: one more unit, one more price. */
  lemma LineStep(cart: seq<int>, catalog: Catalog, x: int, id: int)
    requires id in catalog
    ensures LineFor(cart + [x], catalog, id) ==
              if id == x then
                var line := LineFor(cart, catalog, id);
                line.(quantity := line.quantity + 1, subtotal := line.subtotal + catalog[id].price)
              else LineFor(cart, catalog, id)
  {
    assert (cart + [x])[..|cart|] == cart;
    var q := Count(cart, id);
    assert (q + 1) * catalog[id].price == q * catalog[id].price + catalog[id].price;
  }

  /** One more id in the cart is a new distinct id exactly when it was not there yet. */
  lemma DistinctStep(cart: seq<int>, x: int)
    ensures Distinct(cart + [x]) == if x in Distinct(cart) then Distinct(cart) else Distinct(cart) + [x]
  {
    assert (cart + [x])[..|cart|] == cart;
  }

  /**
   * The grouping map after the cart ids `seen`: all of them resolve, `ids`
   * lists the distinct ones in first-occurrence order, and the map holds,
   * for exactly those ids, the line that `seen` calls for.
   */
  ghost predicate GroupsCart(order: map<int, OrderLine>, ids: seq<int>, seen: seq<int>, catalog: Catalog)
  {
    && InCatalog(seen, catalog)
    && ids == Distinct(seen)
    && (forall id :: id in order <==> id in ids)
    && (forall id :: id in order ==> id in catalog && order[id] == LineFor(seen, catalog, id))
  }

  /** One more resolvable id keeps the whole cart resolvable. */
  lemma InCatalogStep(seen: seq<int>, catalog: Catalog, x: int)
    requires InCatalog(seen, catalog) && x in catalog
    ensures InCatalog(seen + [x], catalog)
  {
    forall id | id in seen + [x] ensures id in catalog {
      assert id == x || id in seen;
    }
  }

  /** Storing the new line of `x` keeps every line of the map the one the longer cart calls for. */
  lemma LinesStep(order: map<int, OrderLine>, seen: seq<int>, catalog: Catalog, x: int, line: OrderLine)
    requires forall id :: id in order ==> id in catalog && order[id] == LineFor(seen, catalog, id)
    requires x in catalog && line == LineFor(seen + [x], catalog, x)
    ensures forall id :: id in order[x := line] ==> id in catalog && order[x := line][id] == LineFor(seen + [x], catalog, id)
  {
    forall id | id in order[x := line]
      ensures id in catalog && order[x := line][id] == LineFor(seen + [x], catalog, id)
    {
      if id != x {
        LineStep(seen, catalog, x, id);
      }
    }
  }

  /** An id seen for the first time gets a line with quantity 1 and subtotal one price. */
  lemma GroupNewItem(order: map<int, OrderLine>, ids: seq<int>, seen: seq<int>, catalog: Catalog, x: int)
    requires GroupsCart(order, ids, seen, catalog) && x in catalog && x !in order
    ensures GroupsCart(order[x := OrderLine(x, catalog[x].commonName, catalog[x].price, 1, catalog[x].price)],
                       ids + [x], seen + [x], catalog)
  {
    var line := OrderLine(x, catalog[x].commonName, catalog[x].price, 1, catalog[x].price);
    InCatalogStep(seen, catalog, x);
    DistinctStep(seen, x);
    assert x !in Distinct(seen);
    assert Count(seen, x) == 0;
    LineStep(seen, catalog, x, x);
    assert line == LineFor(seen + [x], catalog, x);
    LinesStep(order, seen, catalog, x, line);
    assert forall id :: id in order[x := line] <==> id in ids + [x];
  }

  /** An id seen again gets one more unit and one more price on its line. */
  lemma GroupRepeatedItem(order: map<int, OrderLine>, ids: seq<int>, seen: seq<int>, catalog: Catalog, x: int)
    requires GroupsCart(order, ids, seen, catalog) && x in catalog && x in order
    ensures GroupsCart(order[x := order[x].(quantity := order[x].quantity + 1, subtotal := order[x].subtotal + catalog[x].price)],
                       ids, seen + [x], catalog)
  {
    var line := order[x].(quantity := order[x].quantity + 1, subtotal := order[x].subtotal + catalog[x].price);
    InCatalogStep(seen, catalog, x);
    DistinctStep(seen, x);
    LineStep(seen, catalog, x, x);
    LinesStep(order, seen, catalog, x, line);
  }

  /** Listing a fully grouped order map by its distinct ids gives the aggregated lines. */
  lemma OrderValues(order: map<int, OrderLine>, ids: seq<int>, lines: seq<OrderLine>, cart: seq<int>, catalog: Catalog)
    requires InCatalog(cart, catalog) && ids == Distinct(cart)
    requires forall id :: id in order ==> id in catalog && order[id] == LineFor(cart, catalog, id)
    requires |lines| == |ids| && forall k :: 0 <= k < |ids| ==> ids[k] in order && lines[k] == order[ids[k]]
    ensures lines == Aggregate(cart, catalog)
  {
  }

  /** One id the catalog lacks makes the whole cart unresolvable. */
  lemma FirstMissing(cart: seq<int>, catalog: Catalog, i: nat)
    requires i < |cart| && cart[i] !in catalog
    ensures !InCatalog(cart, catalog)
  {
    var x := cart[i];
    assert x in cart && x !in catalog;
  }

  /**
   * The body of the first loop of shopping_cart for a resolved id `x`: a
   * first occurrence creates its line with quantity 1 and subtotal one
   * price, a repeat adds one unit and one price to its line. Either way the
   * map then groups the cart read so far followed by `x`.
   */
  method Tally(order: map<int, OrderLine>, ids: seq<int>, ghost seen: seq<int>, catalog: Catalog, x: int)
    returns (order': map<int, OrderLine>, ids': seq<int>)
    requires GroupsCart(order, ids, seen, catalog) && x in catalog
    ensures GroupsCart(order', ids', seen + [x], catalog)
  {
    var melon := catalog[x];
    if x !in order {
      GroupNewItem(order, ids, seen, catalog, x);
      order' := order[x := OrderLine(x, melon.commonName, melon.price, 1, melon.price)];
      ids' := ids + [x];
    } else {
      GroupRepeatedItem(order, ids, seen, catalog, x);
      var line := order[x];
      order' := order[x := line.(quantity := line.quantity + 1, subtotal := line.subtotal + melon.price)];
      ids' := ids;
    }
  }

  /**
   * The first loop of shopping_cart: resolves each cart id in turn and
   * tallies it into a map from id to order line (see Tally). Also
   * returns the ids in the order they were first inserted. The first id the
   * catalog lacks fails the whole view.
   */
  method GroupByItem(cart: seq<int>, catalog: Catalog) returns (r: Result<(map<int, OrderLine>, seq<int>), CartError>)
    ensures r.Failure? <==> !InCatalog(cart, catalog)
    ensures r.Failure? ==> exists i :: 0 <= i < |cart| && cart[i] == r.error.id && r.error.id !in catalog
                                       && InCatalog(cart[..i], catalog)
    ensures r.Success? ==> GroupsCart(r.value.0, r.value.1, cart, catalog)
  {
    var order: map<int, OrderLine> := map[];
    var ids: seq<int> := [];
    for i := 0 to |cart|
      invariant GroupsCart(order, ids, cart[..i], catalog)
    {
      var mId := cart[i];
      if mId !in catalog {
        assert cart[i] == mId && InCatalog(cart[..i], catalog);
        FirstMissing(cart, catalog, i);
        return Failure(NoSuchItem(mId));
      }
      order, ids := Tally(order, ids, cart[..i], catalog, mId);
      assert cart[..i + 1] == cart[..i] + [mId];
    }
    assert cart[..|cart|] == cart;
    r := Success((order, ids));
  }

  /** The second loop of shopping_cart: adds the subtotals of the order lines into the total cost. */
  method TotalCost(lines: seq<OrderLine>) returns (totalCost: int)
    ensures totalCost == SumSubtotals(lines)
  {
    totalCost := 0;
    for k := 0 to |lines|
      invariant totalCost == SumSubtotals(lines[..k])
    {
      assert lines[..k + 1][..k] == lines[..k];
      totalCost := totalCost + lines[k].subtotal;
    }
    assert lines[..|lines|] == lines;
  }

  /**
   * shopping_cart: groups the cart into order lines, lists them in the
   * order their ids were first inserted, and adds their subtotals into the
   * total cost. Fails when some cart id is not in the catalog.
   */
  method ShoppingCart(cart: seq<int>, catalog: Catalog) returns (r: Result<CartView, CartError>)
    ensures r.Failure? <==> !InCatalog(cart, catalog)
    ensures r.Failure? ==> exists i :: 0 <= i < |cart| && cart[i] == r.error.id && r.error.id !in catalog
                                       && InCatalog(cart[..i], catalog)
    ensures r.Success? ==> r.value.lines == Aggregate(cart, catalog)
    ensures r.Success? ==> r.value.totalCost == SumSubtotals(r.value.lines) == CartTotal(cart, catalog)
    ensures cart == [] ==> r == Success(CartView([], 0))
  {
    var grouped := GroupByItem(cart, catalog);
    if grouped.Failure? {
      return Failure(grouped.error);
    }
    var order, ids := grouped.value.0, grouped.value.1;
    assert GroupsCart(order, ids, cart, catalog);
    assert forall id :: id in order <==> id in ids;
    forall k | 0 <= k < |ids| ensures ids[k] in order {
      assert ids[k] in ids;
    }
    var lines := seq(|ids|, k requires 0 <= k < |ids| => order[ids[k]]);
    OrderValues(order, ids, lines, cart, catalog);
    var totalCost := TotalCost(lines);
    SubtotalsCoverCart(cart, catalog);
    r := Success(CartView(lines, totalCost));
  }
}
