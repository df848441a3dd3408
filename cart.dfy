/** The browser cart of js/main.js: the list kept under `plantNurseryCart`,
    with `addToCart`'s merge, `removeFromCart`, the count `updateCartCount`
    shows, and the total `initCheckout` posts with the order. */
module ShoppingCart {
  import opened Wrappers
  import opened Sequences
  import opened Catalogue
  import opened OrderRecords
  import opened Helpers

  /** `item.quantity || 1`: a missing or zero quantity counts as one. */
  function QtyOr1(quantity: Option<int>): (n: int)
    ensures n != 0
    ensures quantity.None? || quantity.value == 0 ==> n == 1
    ensures quantity.Some? && quantity.value != 0 ==> n == quantity.value
  {
    if quantity.None? || quantity.value == 0 then 1 else quantity.value
  }

  function ItemCount(item: CartItem): int
  {
    QtyOr1(item.quantity)
  }

  /** The number `updateCartCount` shows. */
  function CartCount(items: seq<CartItem>): int
  {
    Sum(items, ItemCount)
  }

  predicate UniqueIds(items: seq<CartItem>)
  {
    forall i, j :: 0 <= i < j < |items| ==> items[i].plant.id != items[j].plant.id
  }

  function SameIdTest(id: int): CartItem -> bool
  {
    (item: CartItem) => item.plant.id == id
  }

  /** The cart after `addToCart(plant)`: the first item with the plant's id
      has its quantity raised to `(quantity || 1) + 1`; if there is none, the
      plant is appended with quantity 1. */
  function Added(items: seq<CartItem>, plant: Plant): (r: seq<CartItem>)
    ensures (exists i :: 0 <= i < |items| && items[i].plant.id == plant.id) ==>
              |r| == |items| &&
              exists k :: 0 <= k < |items| && items[k].plant.id == plant.id &&
                (forall j :: 0 <= j < k ==> items[j].plant.id != plant.id) &&
                r == items[k := items[k].(quantity := Some(QtyOr1(items[k].quantity) + 1))]
    ensures (forall i :: 0 <= i < |items| ==> items[i].plant.id != plant.id) ==>
              r == items + [CartItem(plant, Some(1))]
  {
    var k := FindIndex(items, SameIdTest(plant.id));
    if k == -1 then items + [CartItem(plant, Some(1))]
    else items[k := items[k].(quantity := Some(QtyOr1(items[k].quantity) + 1))]
  }

  /** Every quantity the cart holds is absent or at least one, as
      `addToCart` leaves it. */
  predicate QuantitiesPositive(items: seq<CartItem>)
  {
    forall i :: 0 <= i < |items| ==> items[i].quantity.None? || items[i].quantity.value >= 1
  }

  /** Adding a plant keeps one item per plant and every quantity positive,
      and then the count rises by exactly one whether the plant was merged
      or appended. (A stored quantity of -1 would become 0, which counts as
      1, so the count would rise by two.) */
  lemma AddedSpec(items: seq<CartItem>, plant: Plant)
    ensures UniqueIds(items) ==> UniqueIds(Added(items, plant))
    ensures QuantitiesPositive(items) ==> QuantitiesPositive(Added(items, plant))
    ensures QuantitiesPositive(items) ==> CartCount(Added(items, plant)) == CartCount(items) + 1
  {
    var k := FindIndex(items, SameIdTest(plant.id));
    if k == -1 {
      SumAppend(items, [CartItem(plant, Some(1))], ItemCount);
      assert [CartItem(plant, Some(1))][..0] == [];
    } else {
      SumUpdate(items, k, items[k].(quantity := Some(QtyOr1(items[k].quantity) + 1)), ItemCount);
    }
  }

  function OtherIdTest(id: int): CartItem -> bool
  {
    (item: CartItem) => item.plant.id != id
  }

  /** Removing a plant's items lowers the count by what they counted: the
      count before is the count after plus the removed items' count. */
  lemma {:induction false} RemovedCount(items: seq<CartItem>, id: int)
    ensures CartCount(items) ==
            CartCount(Filter(items, OtherIdTest(id))) + CartCount(Filter(items, SameIdTest(id)))
  {
    if items != [] {
      var x, rest := items[0], items[1..];
      assert items == [x] + rest;
      RemovedCount(rest, id);
      SumHead(x, rest, ItemCount);
      if x.plant.id == id {
        SumHead(x, Filter(rest, SameIdTest(id)), ItemCount);
      } else {
        SumHead(x, Filter(rest, OtherIdTest(id)), ItemCount);
      }
    }
  }

  /** The cart in the browser's storage. */
  class Cart {
    var items: seq<CartItem>

    constructor (items: seq<CartItem>)
      ensures this.items == items
    {
      this.items := items;
    }

    /** `addToCart`, once the plant's record has been fetched. */
    method AddToCart(plant: Plant)
      modifies this
      ensures items == Added(old(items), plant)
      ensures UniqueIds(old(items)) ==> UniqueIds(items)
      ensures QuantitiesPositive(old(items)) ==>
                QuantitiesPositive(items) && CartCount(items) == CartCount(old(items)) + 1
    {
      AddedSpec(items, plant);
      var k := FindIndex(items, SameIdTest(plant.id));
      if k == -1 {
        items := items + [CartItem(plant, Some(1))];
      } else {
        var existing := items[k];
        items := items[k := existing.(quantity := Some(QtyOr1(existing.quantity) + 1))];
      }
    }

    /** `removeFromCart(plantId)`. */
    method RemoveFromCart(plantId: int)
      modifies this
      ensures items == Filter(old(items), OtherIdTest(plantId))
      ensures forall item :: item in items <==> item in old(items) && item.plant.id != plantId
      ensures IsSubsequence(items, old(items))
    {
      FilterSpec(items, OtherIdTest(plantId));
      items := Filter(items, OtherIdTest(plantId));
    }

    /** The total `updateCartCount` displays. */
    method Count() returns (n: int)
      ensures n == CartCount(items)
    {
      n := 0;
      var i := 0;
      while i < |items|
        invariant 0 <= i <= |items|
        invariant n == Sum(items[..i], ItemCount)
      {
        assert items[..i + 1][..i] == items[..i];
        n := n + QtyOr1(items[i].quantity);
        i := i + 1;
      }
      assert items[..|items|] == items;
    }
  }

  function LineAmount(item: CartItem): int
  {
    item.plant.price * QtyOr1(item.quantity)
  }

  /** `Σ price × (quantity || 1)` over the cart. */
  function Subtotal(items: seq<CartItem>): int
  {
    Sum(items, LineAmount)
  }

  /** The `total` `initCheckout` posts, as written: the subtotal plus a
      shipping fee decided by the form's own `total` field (`formTotal`,
      `None` when the form has none or it is not a number), free only when
      that exceeds 500. */
  function CheckoutTotalAsWritten(items: seq<CartItem>, formTotal: Option<int>): int
  {
    Subtotal(items) + (if formTotal.Some? && formTotal.value > 500 then 0 else 50)
  }

  /** The total as evidently intended: the subtotal plus `calculateShipping`
      of the subtotal. */
  function CheckoutTotal(items: seq<CartItem>): (total: int)
    ensures total == Subtotal(items) || total == Subtotal(items) + 50
    ensures total == Subtotal(items) <==> Subtotal(items) >= 500
  {
    Subtotal(items) + CalculateShipping(Subtotal(items))
  }

  /** On a checkout form with no `total` field, a single plant of 600 is
      charged shipping as written, though `calculateShipping` makes that
      order ship free. */
  lemma CheckoutShippingMismatch(plant: Plant)
    requires plant.price == 600
    ensures CheckoutTotalAsWritten([CartItem(plant, Some(1))], None) == 650
    ensures CheckoutTotal([CartItem(plant, Some(1))]) == 600
  {
    var item := CartItem(plant, Some(1));
    assert LineAmount(item) == 600;
    assert [item][..0] == [];
    assert Sum([item], LineAmount) == Sum([], LineAmount) + LineAmount(item);
  }

  /** Whatever the form holds, the written total agrees with the intended
      one exactly when the form's test and the subtotal's test agree. */
  lemma CheckoutTotalsAgree(items: seq<CartItem>, formTotal: Option<int>)
    ensures CheckoutTotalAsWritten(items, formTotal) == CheckoutTotal(items) <==>
            ((formTotal.Some? && formTotal.value > 500) <==> Subtotal(items) >= 500)
  {
  }
}
