/** Order records shared by both Express servers and by the order store of
    backend/backend/data/orders.js, with the status vocabulary and the
    status update they all perform. */
module OrderRecords {
  import opened Wrappers
  import opened Sequences
  import opened Catalogue

  /** A cart entry: a copy of the plant's record plus `quantity`, which may be
      absent. An order's `items` is the cart the browser posted. */
  datatype CartItem = CartItem(plant: Plant, quantity: Option<int>)

  /** An order as the servers store it. `total` is whatever the client sent;
      timestamps are milliseconds (the servers store their ISO text). */
  datatype Order = Order(
    id: string, customerName: string, customerEmail: string, customerAddress: string,
    items: seq<CartItem>, total: Option<int>, status: string,
    createdAt: int, updatedAt: int, userId: Option<string>)

  /** `validStatuses`, in the order the error message lists them. */
  const Statuses: seq<string> := ["pending", "confirmed", "processing", "shipped", "delivered", "cancelled"]

  /** `!status || !validStatuses.includes(status)` is false. */
  predicate IsValidStatus(status: string)
  {
    status in Statuses
  }

  function OrderIdTest(id: string): Order -> bool
  {
    (o: Order) => o.id == id
  }

  /** Position `i` holds the first order whose id is `id`. */
  predicate IsFirstWithId(orders: seq<Order>, i: int, id: string)
  {
    0 <= i < |orders| && orders[i].id == id && forall j :: 0 <= j < i ==> orders[j].id != id
  }

  /** `orders.find(o => o.id === id)`. */
  function FindOrder(orders: seq<Order>, id: string): (r: Option<Order>)
    ensures r.None? <==> forall i :: 0 <= i < |orders| ==> orders[i].id != id
    ensures r.Some? ==> exists i :: IsFirstWithId(orders, i, id) && orders[i] == r.value
  {
    var k := FindIndex(orders, OrderIdTest(id));
    if k == -1 then None else Some(orders[k])
  }

  /** The first order with `id` gets the new `status` and `updatedAt`; every
      other order and every other field is left as it was. `None` when no
      order has that id. No check is made on `status` here. */
  function SetStatus(orders: seq<Order>, id: string, status: string, now: int): (r: Option<seq<Order>>)
    ensures r.None? <==> forall i :: 0 <= i < |orders| ==> orders[i].id != id
    ensures r.Some? ==> |r.value| == |orders|
    ensures r.Some? ==> forall i :: 0 <= i < |orders| ==>
              r.value[i] == if IsFirstWithId(orders, i, id)
                            then orders[i].(status := status, updatedAt := now)
                            else orders[i]
  {
    var k := FindIndex(orders, OrderIdTest(id));
    if k == -1 then None
    else
      assert forall i :: 0 <= i < |orders| ==> (IsFirstWithId(orders, i, id) <==> i == k);
      Some(orders[k := orders[k].(status := status, updatedAt := now)])
  }

  /** Looking the order up after its status was set finds the new status. */
  lemma SetStatusThenFind(orders: seq<Order>, id: string, status: string, now: int)
    requires SetStatus(orders, id, status, now).Some?
    ensures var after := SetStatus(orders, id, status, now).value;
            FindOrder(after, id).Some? &&
            FindOrder(after, id).value.status == status &&
            FindOrder(after, id).value.updatedAt == now
  {
    var after := SetStatus(orders, id, status, now).value;
    var k := FindIndex(orders, OrderIdTest(id));
    assert IsFirstWithId(orders, k, id);
    assert forall j :: 0 <= j < k ==> after[j] == orders[j];
    assert IsFirstWithId(after, k, id);
    var r := FindOrder(after, id);
    var i :| IsFirstWithId(after, i, id) && after[i] == r.value;
    assert i == k;
  }
}
