/** The stock ledger and order service of services.js (`PlantService.updateStock`,
    `OrderService.createOrder`, `updateOrderStatus` and `getOrderStats`), over
    in-memory collections in place of the MongoDB ones: plants keyed by id,
    an append-only list of inventory transactions, and the saved orders. */
module Inventory {
  import opened Wrappers
  import opened Text
  import opened Sequences
  import opened Tally

  /** A plant document. Prices and stock are whole numbers. */
  datatype Plant = Plant(
    name: string, category: string, description: string,
    price: int, stock: int, featured: bool, isActive: bool)

  /** An `InventoryTransaction` document; `kind` is the source's `type`. */
  datatype Transaction = Transaction(
    plant: string, kind: string, quantity: int, previousStock: int, newStock: int,
    order: Option<string>, user: Option<string>)

  /** One line of an order: a plant id and a quantity. */
  datatype Line = Line(plant: string, quantity: int)

  /** An order document. `notes` is "" when there are none. */
  datatype Order = Order(
    id: string, lines: seq<Line>, total: Option<int>, status: string,
    notes: string, updatedAt: int, actualDelivery: Option<int>)

  /** The plants and the transaction log together, as one value. */
  datatype Stock = Stock(plants: map<string, Plant>, log: seq<Transaction>)

  /** `type === 'sale' ? previousStock - quantity : previousStock + quantity`. */
  function NewStock(previous: int, quantity: int, kind: string): int
  {
    if kind == "sale" then previous - quantity else previous + quantity
  }

  /** A sale followed by a restock (any other type) of the same quantity
      brings the stock back, and so does the reverse. */
  lemma NewStockInverse(previous: int, quantity: int, kind: string)
    requires kind != "sale"
    ensures NewStock(NewStock(previous, quantity, "sale"), quantity, kind) == previous
    ensures NewStock(NewStock(previous, quantity, kind), quantity, "sale") == previous
  {
  }

  /** One `updateStock` on the ledger value. */
  function ChangeStock(s: Stock, plantId: string, quantity: int, kind: string,
                       order: Option<string>, user: Option<string>): (r: Result<Stock>)
    ensures plantId !in s.plants ==> r == Failure("Plant not found")
    ensures plantId in s.plants && NewStock(s.plants[plantId].stock, quantity, kind) < 0 ==>
              r == Failure("Insufficient stock")
    ensures r.Success? ==>
              && r.value.plants.Keys == s.plants.Keys
              && r.value.plants[plantId] == s.plants[plantId].(stock := r.value.plants[plantId].stock)
              && r.value.plants[plantId].stock >= 0
              && (forall id :: id in s.plants && id != plantId ==> r.value.plants[id] == s.plants[id])
              && r.value.log == s.log + [Transaction(plantId, kind, quantity, s.plants[plantId].stock,
                                                     r.value.plants[plantId].stock, order, user)]
    ensures plantId in s.plants && NewStock(s.plants[plantId].stock, quantity, kind) >= 0 ==>
              r.Success? && r.value.plants[plantId].stock == NewStock(s.plants[plantId].stock, quantity, kind)
  {
    if plantId !in s.plants then Failure("Plant not found")
    else
      var p := s.plants[plantId];
      var n := NewStock(p.stock, quantity, kind);
      if n < 0 then Failure("Insufficient stock")
      else Success(Stock(s.plants[plantId := p.(stock := n)],
                         s.log + [Transaction(plantId, kind, quantity, p.stock, n, order, user)]))
  }

  /** Every transaction records a change the arithmetic allows, and no
      stock is negative. */
  predicate LedgerValid(s: Stock)
  {
    && (forall id :: id in s.plants ==> s.plants[id].stock >= 0)
    && (forall i :: 0 <= i < |s.log| ==>
          s.log[i].newStock == NewStock(s.log[i].previousStock, s.log[i].quantity, s.log[i].kind) &&
          s.log[i].newStock >= 0)
  }

  /** A stock change keeps the ledger valid, and the transaction it records
      ends at the stock the plant now has. */
  lemma ChangeStockValid(s: Stock, plantId: string, quantity: int, kind: string,
                         order: Option<string>, user: Option<string>)
    requires LedgerValid(s)
    requires ChangeStock(s, plantId, quantity, kind, order, user).Success?
    ensures var t := ChangeStock(s, plantId, quantity, kind, order, user).value;
            && LedgerValid(t)
            && t.log[|t.log| - 1].newStock == t.plants[plantId].stock
            && t.plants[plantId].stock == NewStock(s.plants[plantId].stock, quantity, kind)
  {
  }

  /** The message `createOrder`'s check throws for a line, if any. */
  function LineProblem(plants: map<string, Plant>, line: Line): Option<string>
  {
    if line.plant !in plants then Some("Plant with ID " + line.plant + " not found")
    else if plants[line.plant].stock < line.quantity then
      Some("Insufficient stock for " + plants[line.plant].name + ". Available: " +
           IntToString(plants[line.plant].stock))
    else None
  }

  /** The first line's problem, checking every line against the same
      unchanged stock. */
  function FirstProblem(plants: map<string, Plant>, lines: seq<Line>): (r: Option<string>)
    ensures r.None? <==> forall i :: 0 <= i < |lines| ==> LineProblem(plants, lines[i]).None?
  {
    if lines == [] then None
    else if LineProblem(plants, lines[0]).Some? then LineProblem(plants, lines[0])
    else
      var rest := FirstProblem(plants, lines[1..]);
      assert forall i :: 1 <= i < |lines| ==> lines[i] == lines[1..][i - 1];
      rest
  }

  /** The decrement loop of `createOrder`: one `'sale'` per line, in order,
      stopping at the first one `updateStock` refuses. Returns the ledger as
      it is then, with that refusal's message. */
  function SellAll(s: Stock, lines: seq<Line>, orderId: string): (Stock, Option<string>)
    decreases |lines|
  {
    if lines == [] then (s, None)
    else
      match ChangeStock(s, lines[0].plant, lines[0].quantity, "sale", Some(orderId), None)
      case Failure(m) => (s, Some(m))
      case Success(t) => SellAll(t, lines[1..], orderId)
  }

  /** The check-then-decrement of `createOrder` as written: two lines for one
      plant, each within its stock but not together, pass the check; the
      second decrement then fails after the first was applied, leaving the
      order saved and the stock partly reduced. */
  lemma CreateOrderOversells()
    ensures var snake := Plant("Snake Plant", "Indoor", "Hardy", 299, 5, true, true);
            var s := Stock(map["p1" := snake], []);
            var lines := [Line("p1", 3), Line("p1", 3)];
            var (after, problem) := SellAll(s, lines, "o1");
            && FirstProblem(s.plants, lines).None?
            && problem == Some("Insufficient stock")
            && after.plants["p1"].stock == 2
            && |after.log| == 1
  {
    var snake := Plant("Snake Plant", "Indoor", "Hardy", 299, 5, true, true);
    var s := Stock(map["p1" := snake], []);
    var lines := [Line("p1", 3), Line("p1", 3)];
    var t := ChangeStock(s, "p1", 3, "sale", Some("o1"), None).value;
    assert t.plants["p1"].stock == 2;
    assert lines[1..] == [Line("p1", 3)];
    assert SellAll(s, lines, "o1") == SellAll(t, [Line("p1", 3)], "o1");
    assert FirstProblem(s.plants, lines[1..]).None?;
  }

  /** A plant with 5 in stock sells all 5 to one order, down to 0; an order
      for one more is then refused by the check. */
  lemma SellOutThenRefuse(a: Plant, orderId: string)
    requires a.stock == 5
    ensures var s := Stock(map["A" := a], []);
            var (after, problem) := SellAll(s, [Line("A", 5)], orderId);
            && FirstProblem(s.plants, [Line("A", 5)]).None?
            && problem.None? && after.plants["A"].stock == 0 && |after.log| == 1
            && FirstProblem(after.plants, [Line("A", 1)]) ==
                 Some("Insufficient stock for " + a.name + ". Available: " + "0")
  {
    var s := Stock(map["A" := a], []);
    var t := ChangeStock(s, "A", 5, "sale", Some(orderId), None).value;
    assert [Line("A", 5)][1..] == [];
    assert SellAll(s, [Line("A", 5)], orderId) == SellAll(t, [], orderId);
    assert IntToString(0) == "0";
    assert t.plants["A"] == a.(stock := 0);
    assert LineProblem(t.plants, Line("A", 1)) == Some("Insufficient stock for " + a.name + ". Available: " + "0");
  }

  /** How much of plant `id` the lines ask for in total. */
  function Demand(lines: seq<Line>, id: string): int
  {
    if lines == [] then 0
    else (if lines[0].plant == id then lines[0].quantity else 0) + Demand(lines[1..], id)
  }

  lemma {:induction false} DemandNonNegative(lines: seq<Line>, id: string)
    requires forall i :: 0 <= i < |lines| ==> lines[i].quantity >= 0
    ensures Demand(lines, id) >= 0
  {
    if lines != [] {
      assert forall i :: 0 <= i < |lines[1..]| ==> lines[1..][i] == lines[i + 1];
      DemandNonNegative(lines[1..], id);
    }
  }

  /** The check `createOrder` evidently intends: every plant exists and its
      stock covers the sum of the quantities all lines ask of it. */
  predicate Covered(plants: map<string, Plant>, lines: seq<Line>)
  {
    forall i :: 0 <= i < |lines| ==>
      && lines[i].plant in plants
      && lines[i].quantity >= 0
      && Demand(lines, lines[i].plant) <= plants[lines[i].plant].stock
  }

  /** Under the aggregate check every decrement succeeds: nothing is refused,
      and each plant ends with its stock less its total demand. */
  lemma {:induction false} CoveredSellsAll(s: Stock, lines: seq<Line>, orderId: string)
    requires Covered(s.plants, lines)
    decreases |lines|
    ensures var (after, problem) := SellAll(s, lines, orderId);
            && problem.None?
            && after.plants.Keys == s.plants.Keys
            && forall id :: id in s.plants ==>
                 after.plants[id] == s.plants[id].(stock := s.plants[id].stock - Demand(lines, id))
  {
    if lines != [] {
      var l := lines[0];
      var rest := lines[1..];
      assert forall i :: 0 <= i < |rest| ==> rest[i] == lines[i + 1];
      DemandNonNegative(rest, l.plant);
      assert Demand(lines, l.plant) == l.quantity + Demand(rest, l.plant);
      var t := ChangeStock(s, l.plant, l.quantity, "sale", Some(orderId), None).value;
      forall i | 0 <= i < |rest|
        ensures rest[i].plant in t.plants && rest[i].quantity >= 0
        ensures Demand(rest, rest[i].plant) <= t.plants[rest[i].plant].stock
      {
        assert lines[i + 1] == rest[i];
        assert Demand(lines, rest[i].plant) ==
               (if l.plant == rest[i].plant then l.quantity else 0) + Demand(rest, rest[i].plant);
      }
      CoveredSellsAll(t, rest, orderId);
      forall id | id in s.plants
        ensures SellAll(s, lines, orderId).0.plants[id] ==
                s.plants[id].(stock := s.plants[id].stock - Demand(lines, id))
      {
        assert Demand(lines, id) == (if l.plant == id then l.quantity else 0) + Demand(rest, id);
      }
    }
  }

  /** The aggregate check is stricter than the per-line one: whatever it
      admits, the original check admits too. */
  lemma CoveredPassesCheck(plants: map<string, Plant>, lines: seq<Line>)
    requires Covered(plants, lines)
    ensures FirstProblem(plants, lines).None?
  {
    forall i | 0 <= i < |lines| ensures LineProblem(plants, lines[i]).None? {
      DemandAtLeastLine(lines, i);
    }
  }

  /** With no negative quantities, one line's quantity is at most its
      plant's total demand. */
  lemma {:induction false} DemandAtLeastLine(lines: seq<Line>, i: int)
    requires 0 <= i < |lines|
    requires forall j :: 0 <= j < |lines| ==> lines[j].quantity >= 0
    ensures lines[i].quantity <= Demand(lines, lines[i].plant)
  {
    var rest := lines[1..];
    assert forall j :: 0 <= j < |rest| ==> rest[j] == lines[j + 1];
    if i == 0 {
      DemandNonNegative(rest, lines[0].plant);
    } else {
      DemandAtLeastLine(rest, i - 1);
    }
  }

  /** Position `i` holds the first order with id `id`. */
  predicate IsFirstOrder(orders: seq<Order>, i: int, id: string)
  {
    0 <= i < |orders| && orders[i].id == id && forall j :: 0 <= j < i ==> orders[j].id != id
  }

  function OrderIdTest(id: string): Order -> bool
  {
    (o: Order) => o.id == id
  }

  /** The order `updateOrderStatus` saves: any status is accepted, `notes`
      replaced only when given, and `actualDelivery` stamped on delivery. */
  function WithStatus(o: Order, status: string, notes: string, now: int): (r: Order)
    ensures r.id == o.id && r.lines == o.lines && r.total == o.total
    ensures r.status == status && r.updatedAt == now
    ensures r.notes == (if notes != "" then notes else o.notes)
    ensures r.actualDelivery == (if status == "delivered" then Some(now) else o.actualDelivery)
  {
    var withNotes := if notes != "" then o.(notes := notes) else o;
    var stamped := withNotes.(status := status, updatedAt := now);
    if status == "delivered" then stamped.(actualDelivery := Some(now)) else stamped
  }

  /** The body of `getOrderStats`. */
  datatype OrderSummary = OrderSummary(totalOrders: nat, totalRevenue: int, statusBreakdown: seq<Group>)

  /** `$sum: '$total'` adds nothing for an order without a total. */
  function StatusAndTotal(o: Order): (string, int)
  {
    (o.status, o.total.GetOr(0))
  }

  function OrderTotal(o: Order): int
  {
    o.total.GetOr(0)
  }

  /** The (status, total) pair of every order, in order. */
  function OrderPairs(orders: seq<Order>): (pairs: seq<(string, int)>)
    ensures |pairs| == |orders|
    ensures forall i :: 0 <= i < |orders| ==> pairs[i] == StatusAndTotal(orders[i])
  {
    seq(|orders|, i requires 0 <= i < |orders| => StatusAndTotal(orders[i]))
  }

  /** `getOrderStats`: a group per status with its count and the sum of its
      totals, the number of orders, and the sum of every total. */
  function OrderStats(orders: seq<Order>): OrderSummary
  {
    OrderSummary(|orders|, Sum(orders, OrderTotal), GroupBy(OrderPairs(orders)))
  }

  lemma {:induction false} SumMapped(orders: seq<Order>)
    ensures Sum(OrderPairs(orders), Value) == Sum(orders, OrderTotal)
  {
    if orders != [] {
      var n := |orders| - 1;
      SumMapped(orders[..n]);
      assert OrderPairs(orders)[..n] == OrderPairs(orders[..n]);
    }
  }

  function HasStatus(status: string): Order -> bool
  {
    (o: Order) => o.status == status
  }

  /** Counting and summing a status over the pairs is counting and summing
      over the orders that have it. */
  lemma {:induction false} StatusPairsCount(orders: seq<Order>, k: string)
    ensures Occurrences(OrderPairs(orders), k) == |Filter(orders, HasStatus(k))|
    ensures KeySum(OrderPairs(orders), k) == Sum(Filter(orders, HasStatus(k)), OrderTotal)
  {
    if orders != [] {
      var n := |orders| - 1;
      var init, last := orders[..n], orders[n];
      StatusPairsCount(init, k);
      assert OrderPairs(orders)[..n] == OrderPairs(init);
      assert orders == init + [last];
      FilterAppend(init, [last], HasStatus(k));
      var tail := Filter([last], HasStatus(k));
      assert tail == if last.status == k then [last] else [];
      SumAppend(Filter(init, HasStatus(k)), tail, OrderTotal);
      if last.status == k {
        assert Sum(tail, OrderTotal) == Sum([], OrderTotal) + OrderTotal(last) by {
          assert tail[..0] == [];
        }
      }
    }
  }

  /** The breakdown partitions the orders: one group per status that occurs
      and none for any other, each counting the orders with that status and
      summing their totals (a missing total adds 0), the counts adding up to
      `totalOrders` and the sums to `totalRevenue`. Unlike the Express
      servers' revenue, cancelled orders are included. */
  lemma OrderStatsSpec(orders: seq<Order>)
    ensures var st := OrderStats(orders);
            && Distinct(Keys(st.statusBreakdown))
            && Sum(st.statusBreakdown, Count) == st.totalOrders
            && Sum(st.statusBreakdown, Total) == st.totalRevenue
    ensures var st := OrderStats(orders);
            forall k ::
              && (k in Keys(st.statusBreakdown) <==> exists i :: 0 <= i < |orders| && orders[i].status == k)
              && CountOf(st.statusBreakdown, k) == |Filter(orders, HasStatus(k))|
              && TotalOf(st.statusBreakdown, k) == Sum(Filter(orders, HasStatus(k)), OrderTotal)
  {
    var pairs := OrderPairs(orders);
    GroupByKeys(pairs);
    GroupBySums(pairs);
    SumMapped(orders);
    forall k
      ensures k in Keys(GroupBy(pairs)) <==> exists i :: 0 <= i < |orders| && orders[i].status == k
      ensures CountOf(GroupBy(pairs), k) == |Filter(orders, HasStatus(k))|
      ensures TotalOf(GroupBy(pairs), k) == Sum(Filter(orders, HasStatus(k)), OrderTotal)
    {
      GroupByCounts(pairs, k);
      GroupByTotals(pairs, k);
      StatusPairsCount(orders, k);
      var f := Filter(orders, HasStatus(k));
      FilterSpec(orders, HasStatus(k));
      if |f| > 0 {
        assert f[0] in f;
      }
      if exists i :: 0 <= i < |orders| && orders[i].status == k {
        var i :| 0 <= i < |orders| && orders[i].status == k;
        assert orders[i] in f;
      }
    }
  }

  /** The `Plant`, `InventoryTransaction` and `Order` collections. */
  class Database {
    var plants: map<string, Plant>
    var transactions: seq<Transaction>
    var orders: seq<Order>

    constructor (plants: map<string, Plant>, orders: seq<Order>)
      ensures this.plants == plants && this.orders == orders && transactions == []
    {
      this.plants := plants;
      this.orders := orders;
      transactions := [];
    }

    /** `PlantService.updateStock`. Both failures leave stock and log as they were. */
    method UpdateStock(plantId: string, quantity: int, kind: string, orderId: Option<string>, userId: Option<string>)
      returns (r: Result<Plant>)
      modifies this
      ensures orders == old(orders)
      ensures var c := ChangeStock(old(Stock(plants, transactions)), plantId, quantity, kind, orderId, userId);
              && (c.Failure? ==>
                    r == Failure("Error updating stock: " + c.message) &&
                    plants == old(plants) && transactions == old(transactions))
              && (c.Success? ==>
                    Stock(plants, transactions) == c.value && plantId in plants && r == Success(plants[plantId]))
    {
      ghost var c := ChangeStock(Stock(plants, transactions), plantId, quantity, kind, orderId, userId);
      if plantId !in plants {
        return Failure("Error updating stock: Plant not found");
      }
      var plant := plants[plantId];
      var previousStock := plant.stock;
      var newStock := if kind == "sale" then previousStock - quantity else previousStock + quantity;
      if newStock < 0 {
        return Failure("Error updating stock: Insufficient stock");
      }
      plants := plants[plantId := plant.(stock := newStock)];
      transactions := transactions + [Transaction(plantId, kind, quantity, previousStock, newStock, orderId, userId)];
      assert Stock(plants, transactions) == c.value;
      r := Success(plants[plantId]);
    }

    /** The first loop of `createOrder`: the message it throws for the first
        line whose plant is missing or whose stock is below its quantity. */
    method CheckLines(lines: seq<Line>) returns (problem: Option<string>)
      ensures problem == FirstProblem(plants, lines)
      ensures problem.None? <==> forall i :: 0 <= i < |lines| ==> LineProblem(plants, lines[i]).None?
    {
      var i := 0;
      while i < |lines|
        invariant 0 <= i <= |lines|
        invariant FirstProblem(plants, lines) == FirstProblem(plants, lines[i..])
      {
        assert lines[i..][1..] == lines[i + 1..];
        var line := lines[i];
        if line.plant !in plants {
          return Some("Plant with ID " + line.plant + " not found");
        }
        var plant := plants[line.plant];
        if plant.stock < line.quantity {
          return Some("Insufficient stock for " + plant.name + ". Available: " + IntToString(plant.stock));
        }
        i := i + 1;
      }
      problem := None;
    }

    /** The second loop of `createOrder`: a `'sale'` per line until one is
        refused, returning the message `updateStock` then throws. */
    method SellLines(lines: seq<Line>, orderId: string) returns (problem: Option<string>)
      modifies this
      ensures orders == old(orders)
      ensures var outcome := SellAll(old(Stock(plants, transactions)), lines, orderId);
              && Stock(plants, transactions) == outcome.0
              && problem == if outcome.1.None? then None else Some("Error updating stock: " + outcome.1.value)
    {
      ghost var start := Stock(plants, transactions);
      var i := 0;
      while i < |lines|
        invariant 0 <= i <= |lines|
        invariant orders == old(orders)
        invariant SellAll(start, lines, orderId) == SellAll(Stock(plants, transactions), lines[i..], orderId)
      {
        assert lines[i..][1..] == lines[i + 1..];
        var sold := UpdateStock(lines[i].plant, lines[i].quantity, "sale", Some(orderId), None);
        if sold.Failure? {
          return Some(sold.message);
        }
        i := i + 1;
      }
      problem := None;
    }

    /** `OrderService.createOrder`: check every line against the current
        stock, save the order, then sell line by line. */
    method CreateOrder(order: Order) returns (r: Result<Order>)
      modifies this
      ensures FirstProblem(old(plants), order.lines).Some? ==>
                && r == Failure("Error creating order: " + FirstProblem(old(plants), order.lines).value)
                && plants == old(plants) && transactions == old(transactions) && orders == old(orders)
      ensures FirstProblem(old(plants), order.lines).None? ==>
                var outcome := SellAll(old(Stock(plants, transactions)), order.lines, order.id);
                && orders == old(orders) + [order]
                && Stock(plants, transactions) == outcome.0
                && r == (if outcome.1.None? then Success(order)
                         else Failure("Error creating order: " + ("Error updating stock: " + outcome.1.value)))
    {
      var problem := CheckLines(order.lines);
      if problem.Some? {
        return Failure("Error creating order: " + problem.value);
      }
      orders := orders + [order];
      problem := SellLines(order.lines, order.id);
      if problem.Some? {
        return Failure("Error creating order: " + problem.value);
      }
      r := Success(order);
    }

    /** `OrderService.updateOrderStatus`: any status is stored; an unknown id
        throws. */
    method UpdateOrderStatus(id: string, status: string, notes: string, now: int) returns (r: Result<Order>)
      modifies this
      ensures plants == old(plants) && transactions == old(transactions)
      ensures (forall i :: 0 <= i < |old(orders)| ==> old(orders)[i].id != id) ==>
                r == Failure("Error updating order status: Order not found") && orders == old(orders)
      ensures (exists i :: 0 <= i < |old(orders)| && old(orders)[i].id == id) ==>
                && |orders| == |old(orders)|
                && (forall i :: 0 <= i < |orders| ==>
                      orders[i] == if IsFirstOrder(old(orders), i, id)
                                   then WithStatus(old(orders)[i], status, notes, now)
                                   else old(orders)[i])
                && r.Success? && r.value.id == id && r.value.status == status
                && exists k :: IsFirstOrder(old(orders), k, id) && r == Success(orders[k])
    {
      var k := FindIndex(orders, OrderIdTest(id));
      if k == -1 {
        return Failure("Error updating order status: Order not found");
      }
      assert forall i :: 0 <= i < |orders| ==> (IsFirstOrder(orders, i, id) <==> i == k);
      var updated := orders[k];
      if notes != "" {
        updated := updated.(notes := notes);
      }
      updated := updated.(status := status, updatedAt := now);
      if status == "delivered" {
        updated := updated.(actualDelivery := Some(now));
      }
      orders := orders[k := updated];
      r := Success(updated);
      assert IsFirstOrder(old(orders), k, id) && r == Success(orders[k]);
    }
  }
}
