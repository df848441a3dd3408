/** The in-memory order store of backend/backend/data/orders.js: one module
    level array behind `getAll`, `add`, `findById`, `updateStatus`,
    `getCount` and `clear`. */
module OrderStore {
  import opened Wrappers
  import opened Sequences
  import opened OrderRecords

  class Store {
    var orders: seq<Order>

    /** The module starts with no orders. */
    constructor ()
      ensures orders == []
    {
      orders := [];
    }

    /** `getAll`: a new sequence holding the stored orders, in order. */
    method GetAll() returns (r: seq<Order>)
      ensures r == orders
    {
      r := orders;
    }

    /** `add`: appends the order and returns it. */
    method Add(order: Order) returns (r: Order)
      modifies this
      ensures r == order && orders == old(orders) + [order]
    {
      orders := orders + [order];
      r := order;
    }

    /** `findById`: the first order with the id, or nothing. */
    method FindById(id: string) returns (r: Option<Order>)
      ensures r.None? <==> forall i :: 0 <= i < |orders| ==> orders[i].id != id
      ensures r.Some? ==> exists i :: IsFirstWithId(orders, i, id) && orders[i] == r.value
    {
      r := FindOrder(orders, id);
    }

    /** `updateStatus`: sets the status and `updatedAt` of the first order with
        the id and returns it; `None` (the source's `null`) when there is none. */
    method UpdateStatus(id: string, status: string, now: int) returns (r: Option<Order>)
      modifies this
      ensures SetStatus(old(orders), id, status, now).None? ==> r.None? && orders == old(orders)
      ensures SetStatus(old(orders), id, status, now).Some? ==>
                && orders == SetStatus(old(orders), id, status, now).value
                && r.Some? && r.value.id == id && r.value.status == status && r.value.updatedAt == now
                && r == FindOrder(orders, id)
    {
      var k := FindIndex(orders, OrderIdTest(id));
      if k == -1 {
        return None;
      }
      orders := orders[k := orders[k].(status := status, updatedAt := now)];
      r := Some(orders[k]);
      SetStatusThenFind(old(orders), id, status, now);
      assert IsFirstWithId(orders, k, id);
    }

    /** `getCount`. */
    method GetCount() returns (n: nat)
      ensures n == |orders|
    {
      n := |orders|;
    }

    /** `clear`. */
    method Clear()
      modifies this
      ensures orders == []
    {
      orders := [];
    }
  }

  /** An order added under an id no stored order has is what `findById` then
      returns for that id. */
  lemma AddThenFind(orders: seq<Order>, order: Order)
    requires forall i :: 0 <= i < |orders| ==> orders[i].id != order.id
    ensures FindOrder(orders + [order], order.id) == Some(order)
  {
    var after := orders + [order];
    assert IsFirstWithId(after, |orders|, order.id);
    var i :| IsFirstWithId(after, i, order.id) && after[i] == FindOrder(after, order.id).value;
  }

  /** Updating a status keeps the number of orders, every id, and every
      field but `status` and `updatedAt`. */
  lemma SetStatusKeeps(orders: seq<Order>, id: string, status: string, now: int)
    requires SetStatus(orders, id, status, now).Some?
    ensures var after := SetStatus(orders, id, status, now).value;
            && |after| == |orders|
            && forall i :: 0 <= i < |orders| ==>
                 after[i].(status := orders[i].status, updatedAt := orders[i].updatedAt) == orders[i]
  {
  }
}
