/** The order, user and catalogue bookkeeping of the two Express servers:
    backend/server.js, which persists every change to JSON files, and
    backend/backend/server.js, which keeps everything in memory. They run the
    same handlers up to the differences `Variant` records. Each handler is a
    method that takes the request's fields and returns the reply; the module
    level `plants`, `orders` and `users` arrays are fields of `Nursery`. */
module Server {
  import opened Wrappers
  import opened Text
  import opened Sequences
  import opened Tally
  import opened Catalogue
  import opened OrderRecords

  /** FileBacked is backend/server.js, InMemory is backend/backend/server.js. */
  datatype Variant = FileBacked | InMemory

  /** A registered user; `password` is the bcrypt hash, computed elsewhere. */
  datatype User = User(id: string, name: string, email: string, password: string, isAdmin: bool, orders: seq<string>)

  /** What the `authenticate` middleware makes of the Authorization header:
      none, one that does not verify, or the decoded claims. */
  datatype Auth = NoToken | BadToken | Token(userId: string, isAdmin: bool)

  /** The body of POST /api/orders. Strings are "" when absent; the last four
      fields are ones a client may send but the handler overrides. */
  datatype OrderRequest = OrderRequest(
    id: Option<string>, customerName: string, customerEmail: string, customerAddress: string,
    items: Option<seq<CartItem>>, total: Option<int>,
    status: Option<string>, createdAt: Option<int>, updatedAt: Option<int>, userId: Option<string>)

  /** The body of POST /api/admin/plants. Strings are "" when absent. */
  datatype PlantRequest = PlantRequest(
    name: string, category: string, price: Option<int>, image: string,
    description: string, stock: Option<int>, featured: bool)

  /** The body of GET /api/admin/stats. The groups of `ordersByStatus` and
      `plantsByCategory` carry counts only (their sums are 0). */
  datatype Stats = Stats(
    totalOrders: nat, totalUsers: nat, totalPlants: nat, totalRevenue: int,
    ordersByStatus: seq<Group>, plantsByCategory: seq<Group>, recentOrders: seq<Order>)

  /** The refusal an admin-only route sends, or `None` for an admin. */
  function AdminRefusal(auth: Auth): (r: Option<(nat, string)>)
    ensures r.None? <==> auth.Token? && auth.isAdmin
    ensures r.Some? ==> (r.value.0 == 401 <==> !auth.Token?) && (r.value.0 == 403 <==> auth.Token?)
  {
    match auth
    case NoToken => Some((401, "No token provided"))
    case BadToken => Some((401, "Invalid token"))
    case Token(_, isAdmin) => if isAdmin then None else Some((403, "Unauthorized"))
  }

  function Refuse<T>(refusal: (nat, string)): Reply<T>
  {
    Fail(refusal.0, refusal.1)
  }

  function MissingUserFields(variant: Variant): string
  {
    if variant == FileBacked then "Missing required fields: name, email, password" else "Missing required fields"
  }

  function UserExists(variant: Variant): string
  {
    if variant == FileBacked then "User already exists with this email" else "User already exists"
  }

  function MissingOrderFields(variant: Variant): string
  {
    if variant == FileBacked
    then "Missing required order fields (customerName, customerEmail, customerAddress, items, total)"
    else "Missing required fields"
  }

  function InvalidStatusMessage(): string
  {
    "Invalid status. Must be one of: " + Join(Statuses, ", ")
  }

  predicate EmailTaken(users: seq<User>, email: string)
  {
    exists i :: 0 <= i < |users| && users[i].email == email
  }

  predicate UniqueEmails(users: seq<User>)
  {
    forall i, j :: 0 <= i < j < |users| ==> users[i].email != users[j].email
  }

  /** The placement check: name, email and address given, items given and
      non-empty, and in backend/server.js also a `total` that is not undefined. */
  predicate PlacementValid(variant: Variant, req: OrderRequest)
  {
    && req.customerName != "" && req.customerEmail != "" && req.customerAddress != ""
    && req.items.Some? && |req.items.value| > 0
    && (variant == FileBacked ==> req.total.Some?)
  }

  /** `{id: uuid(), ...orderData, status: 'pending', createdAt, updatedAt}`
      followed by `order.userId = userId`. */
  function NewOrder(req: OrderRequest, generatedId: string, now: int, tokenUser: Option<string>): Order
  {
    Order(req.id.GetOr(generatedId), req.customerName, req.customerEmail, req.customerAddress,
          req.items.GetOr([]), req.total, "pending", now, now, tokenUser)
  }

  /** A new order is pending with equal timestamps whatever the client sent
      for status, timestamps and user; a client-sent id replaces the
      generated one; customer fields, items and total are the client's. */
  lemma NewOrderSpec(req: OrderRequest, generatedId: string, now: int, tokenUser: Option<string>,
                     status: Option<string>, createdAt: Option<int>, updatedAt: Option<int>, userId: Option<string>)
    ensures var o := NewOrder(req, generatedId, now, tokenUser);
            && o.status == "pending" && IsValidStatus(o.status)
            && o.createdAt == o.updatedAt == now
            && o.id == (if req.id.Some? then req.id.value else generatedId)
            && o.userId == tokenUser
            && o.customerName == req.customerName && o.customerEmail == req.customerEmail
            && o.customerAddress == req.customerAddress && o.total == req.total
            && o == NewOrder(req.(status := status, createdAt := createdAt, updatedAt := updatedAt, userId := userId),
                             generatedId, now, tokenUser)
  {
  }

  predicate IsFirstUser(users: seq<User>, i: int, id: string)
  {
    0 <= i < |users| && users[i].id == id && forall j :: 0 <= j < i ==> users[j].id != id
  }

  function UserIdTest(id: string): User -> bool
  {
    (u: User) => u.id == id
  }

  /** `if (userId) { const user = users.find(u => u.id === userId); if (user)
      user.orders.push(order.id) }`. */
  function LinkOrder(users: seq<User>, tokenUser: Option<string>, orderId: string): (r: seq<User>)
    ensures tokenUser.None? || tokenUser.value == "" ==> r == users
    ensures |r| == |users|
    ensures tokenUser.Some? && tokenUser.value != "" ==>
              forall i :: 0 <= i < |users| ==>
                r[i] == if IsFirstUser(users, i, tokenUser.value)
                        then users[i].(orders := users[i].orders + [orderId])
                        else users[i]
  {
    if tokenUser.None? || tokenUser.value == "" then users
    else
      var k := FindIndex(users, UserIdTest(tokenUser.value));
      assert forall i :: 0 <= i < |users| ==> (IsFirstUser(users, i, tokenUser.value) <==> i == k);
      if k == -1 then users
      else users[k := users[k].(orders := users[k].orders + [orderId])]
  }

  /** Linking appends the order id exactly once, to one user at most, and
      only when a user with the token's id exists. */
  lemma LinkOrderOnce(users: seq<User>, tokenUser: Option<string>, orderId: string)
    ensures var r := LinkOrder(users, tokenUser, orderId);
            (forall i :: 0 <= i < |users| ==> r[i].id == users[i].id && r[i].email == users[i].email) &&
            |set i | 0 <= i < |users| && r[i] != users[i]| ==
              (if tokenUser.Some? && tokenUser.value != "" && exists i :: 0 <= i < |users| && users[i].id == tokenUser.value
               then 1 else 0)
  {
    var r := LinkOrder(users, tokenUser, orderId);
    var changed := set i | 0 <= i < |users| && r[i] != users[i];
    if tokenUser.Some? && tokenUser.value != "" {
      var k := FindIndex(users, UserIdTest(tokenUser.value));
      if k == -1 {
        assert changed == {};
      } else {
        assert IsFirstUser(users, k, tokenUser.value);
        assert r[k].orders == users[k].orders + [orderId];
        assert r[k] != users[k] by { assert |r[k].orders| == |users[k].orders| + 1; }
        assert changed == {k};
      }
    } else {
      assert changed == {};
    }
  }

  /** The plant fields check of POST /api/admin/plants: `price` must be truthy
      (present and not 0) and `stock` present. */
  predicate PlantFieldsPresent(req: PlantRequest)
  {
    && req.name != "" && req.category != "" && req.price.Some? && req.price.value != 0
    && req.image != "" && req.description != "" && req.stock.Some?
  }

  /** Revenue counts an order when it is not cancelled and, in backend/server.js,
      when its total is not undefined. */
  function CountedBy(variant: Variant): Order -> bool
  {
    (o: Order) => o.status != "cancelled" && (variant == FileBacked ==> o.total.Some?)
  }

  /** `order.total || 0`. */
  function TotalOrZero(o: Order): int
  {
    o.total.GetOr(0)
  }

  /** `orders.filter(...).reduce((sum, order) => sum + (order.total || 0), 0)`. */
  function Revenue(variant: Variant, orders: seq<Order>): int
  {
    Sum(Filter(orders, CountedBy(variant)), TotalOrZero)
  }

  /** What an order adds to revenue: its total, or 0 when it is cancelled or
      has no total. */
  function LiveTotal(o: Order): int
  {
    if o.status == "cancelled" then 0 else o.total.GetOr(0)
  }

  /** Revenue is the sum of the totals of the orders that are not cancelled,
      a missing total counting 0; so the two servers agree on it, the extra
      `total !== undefined` test of backend/server.js changing nothing. */
  lemma RevenueSpec(variant: Variant, orders: seq<Order>)
    ensures Revenue(variant, orders) == Sum(orders, LiveTotal)
    ensures Revenue(FileBacked, orders) == Revenue(InMemory, orders)
  {
    forall v: Variant ensures Sum(Filter(orders, CountedBy(v)), TotalOrZero) == Sum(orders, LiveTotal) {
      SumFilter(orders, CountedBy(v), TotalOrZero, LiveTotal);
    }
  }

  /** The fixture: pending orders of 300 and 250 and a cancelled one of 1000
      give a revenue of 550. */
  lemma RevenueFixture(variant: Variant, a: Order, b: Order, c: Order)
    requires a.status == "pending" && a.total == Some(300)
    requires b.status == "pending" && b.total == Some(250)
    requires c.status == "cancelled" && c.total == Some(1000)
    ensures Revenue(variant, [a, b, c]) == 550
  {
    RevenueSpec(variant, [a, b, c]);
    assert LiveTotal(a) == 300 && LiveTotal(b) == 250 && LiveTotal(c) == 0;
    assert [a, b, c][..2] == [a, b] && [a, b][..1] == [a] && [a][..0] == [];
    assert Sum([a], LiveTotal) == 300;
    assert Sum([a, b], LiveTotal) == 550;
  }

  function StatusPairs(orders: seq<Order>): (r: seq<(string, int)>)
    ensures |r| == |orders| && forall i :: 0 <= i < |orders| ==> r[i] == (orders[i].status, 0)
  {
    seq(|orders|, i requires 0 <= i < |orders| => (orders[i].status, 0))
  }

  function CategoryPairs(plants: seq<Plant>): (r: seq<(string, int)>)
    ensures |r| == |plants| && forall i :: 0 <= i < |plants| ==> r[i] == (plants[i].category, 0)
  {
    seq(|plants|, i requires 0 <= i < |plants| => (plants[i].category, 0))
  }

  /** The comparator `new Date(b.createdAt) - new Date(a.createdAt)`: `a` may
      come first when it is not older than `b`. */
  function NewerFirst(a: Order, b: Order): bool
  {
    a.createdAt >= b.createdAt
  }

  /** `orders.sort(NewerFirst)`. */
  function RecentFirst(orders: seq<Order>): seq<Order>
  {
    Sort(orders, NewerFirst)
  }

  function Min(a: int, b: int): int { if a < b then a else b }

  /** Everything GET /api/admin/stats reports, computed from the orders as
      they were before the handler sorted them. */
  function StatsOf(variant: Variant, orders: seq<Order>, totalUsers: nat, plants: seq<Plant>): Stats
  {
    var recent := RecentFirst(orders);
    SortSpec(orders, NewerFirst);
    Stats(|orders|, totalUsers, |plants|, Revenue(variant, orders),
          GroupBy(StatusPairs(orders)), GroupBy(CategoryPairs(plants)),
          recent[..Min(10, |orders|)])
  }

  /** The status counts partition the orders and the category counts the
      plants: one group per distinct key, each key's count its number of
      occurrences, and the counts summing to the totals. */
  lemma StatsCounts(variant: Variant, orders: seq<Order>, totalUsers: nat, plants: seq<Plant>, key: string)
    ensures var s := StatsOf(variant, orders, totalUsers, plants);
            && s.totalOrders == |orders| && s.totalPlants == |plants| && s.totalUsers == totalUsers
            && Sum(s.ordersByStatus, Count) == s.totalOrders
            && Sum(s.plantsByCategory, Count) == s.totalPlants
            && Distinct(Keys(s.ordersByStatus)) && Distinct(Keys(s.plantsByCategory))
            && CountOf(s.ordersByStatus, key) == Occurrences(StatusPairs(orders), key)
            && CountOf(s.plantsByCategory, key) == Occurrences(CategoryPairs(plants), key)
            && s.totalRevenue == Sum(orders, LiveTotal)
  {
    GroupBySums(StatusPairs(orders));
    GroupBySums(CategoryPairs(plants));
    GroupByKeys(StatusPairs(orders));
    GroupByKeys(CategoryPairs(plants));
    GroupByCounts(StatusPairs(orders), key);
    GroupByCounts(CategoryPairs(plants), key);
    RevenueSpec(variant, orders);
  }

  /** Every status key counted is a valid status when every stored order has one. */
  lemma StatusKeysValid(orders: seq<Order>, key: string)
    requires forall i :: 0 <= i < |orders| ==> IsValidStatus(orders[i].status)
    requires key in Keys(GroupBy(StatusPairs(orders)))
    ensures IsValidStatus(key)
  {
    GroupByKeys(StatusPairs(orders));
    OccurrencesWitness(StatusPairs(orders), key);
  }

  lemma {:induction false} OccurrencesWitness(pairs: seq<(string, int)>, key: string)
    requires Occurrences(pairs, key) > 0
    ensures exists i :: 0 <= i < |pairs| && pairs[i].0 == key
  {
    var last := |pairs| - 1;
    if pairs[last].0 != key {
      OccurrencesWitness(pairs[..last], key);
      var i :| 0 <= i < last && pairs[..last][i].0 == key;
      assert pairs[i].0 == key;
    }
  }

  lemma NewerFirstPreorder()
    ensures TotalPreorder(NewerFirst)
  {
  }

  /** `recentOrders` holds at most ten orders, newest first, all taken from
      the stored orders, and no order left out is newer than the last one kept. */
  lemma RecentOrdersSpec(variant: Variant, orders: seq<Order>, totalUsers: nat, plants: seq<Plant>)
    ensures var r := StatsOf(variant, orders, totalUsers, plants).recentOrders;
            && |r| == Min(10, |orders|)
            && (forall i, j :: 0 <= i < j < |r| ==> r[i].createdAt >= r[j].createdAt)
            && multiset(r) <= multiset(orders)
            && (forall j :: 0 < |r| <= j < |RecentFirst(orders)| ==> RecentFirst(orders)[j].createdAt <= r[|r| - 1].createdAt)
  {
    var sorted := RecentFirst(orders);
    SortSpec(orders, NewerFirst);
    NewerFirstPreorder();
    var n := Min(10, |orders|);
    assert sorted == sorted[..n] + sorted[n..];
    assert multiset(sorted) == multiset(sorted[..n]) + multiset(sorted[n..]);
  }

  predicate AllStatusesValid(orders: seq<Order>)
  {
    forall i :: 0 <= i < |orders| ==> IsValidStatus(orders[i].status)
  }

  class Nursery {
    const variant: Variant
    var plants: seq<Plant>
    var orders: seq<Order>
    var users: seq<User>

    /** The state at start-up: loaded from the JSON files (backend/server.js)
        or the hard-coded catalogue with no orders or users
        (backend/backend/server.js). */
    constructor (variant: Variant, plants: seq<Plant>, orders: seq<Order>, users: seq<User>)
      ensures this.variant == variant && this.plants == plants && this.orders == orders && this.users == users
    {
      this.variant := variant;
      this.plants := plants;
      this.orders := orders;
      this.users := users;
    }

    /** POST /api/register. */
    method Register(name: string, email: string, password: string, newId: string, passwordHash: string)
      returns (r: Reply<()>)
      modifies this
      ensures plants == old(plants) && orders == old(orders)
      ensures (name == "" || email == "" || password == "") ==>
                r == Fail(400, MissingUserFields(variant)) && users == old(users)
      ensures name != "" && email != "" && password != "" && EmailTaken(old(users), email) ==>
                r == Fail(400, UserExists(variant)) && users == old(users)
      ensures name != "" && email != "" && password != "" && !EmailTaken(old(users), email) ==>
                r == Ok(()) && users == old(users) + [User(newId, name, email, passwordHash, false, [])]
      ensures UniqueEmails(old(users)) ==> UniqueEmails(users)
    {
      if name == "" || email == "" || password == "" {
        return Fail(400, MissingUserFields(variant));
      }
      if EmailTaken(users, email) {
        return Fail(400, UserExists(variant));
      }
      users := users + [User(newId, name, email, passwordHash, false, [])];
      r := Ok(());
    }

    /** POST /api/orders. `tokenUser` is the id the token decodes to (`None`
        for a guest or a token that does not verify); `saved` is whether
        backend/server.js managed to write orders.json. */
    method PlaceOrder(req: OrderRequest, generatedId: string, now: int, tokenUser: Option<string>, saved: bool)
      returns (r: Reply<Order>)
      modifies this
      ensures plants == old(plants)
      ensures !PlacementValid(variant, req) ==>
                r == Fail(400, MissingOrderFields(variant)) && orders == old(orders) && users == old(users)
      ensures PlacementValid(variant, req) ==>
                var o := NewOrder(req, generatedId, now, tokenUser);
                && orders == old(orders) + [o]
                && users == LinkOrder(old(users), tokenUser, o.id)
                && r == (if variant == InMemory || saved then Ok(o)
                         else Fail(500, "Error placing order: Failed to save order to database"))
      ensures AllStatusesValid(old(orders)) ==> AllStatusesValid(orders)
    {
      if !PlacementValid(variant, req) {
        return Fail(400, MissingOrderFields(variant));
      }
      var order := NewOrder(req, generatedId, now, tokenUser);
      orders := orders + [order];
      users := LinkOrder(users, tokenUser, order.id);
      if variant == InMemory || saved {
        r := Ok(order);
      } else {
        r := Fail(500, "Error placing order: Failed to save order to database");
      }
    }

    /** POST /api/admin/plants, a route only backend/server.js has. */
    method AddPlant(auth: Auth, req: PlantRequest) returns (r: Reply<Plant>)
      requires variant == FileBacked
      modifies this
      ensures orders == old(orders) && users == old(users)
      ensures AdminRefusal(auth).Some? ==> r == Refuse(AdminRefusal(auth).value) && plants == old(plants)
      ensures AdminRefusal(auth).None? && !PlantFieldsPresent(req) ==>
                r == Fail(400, "Missing required plant fields") && plants == old(plants)
      ensures AdminRefusal(auth).None? && PlantFieldsPresent(req) ==>
                var p := Plant(NextPlantId(old(plants)), req.name, req.category, req.price.value,
                               req.image, req.description, req.stock.value, req.featured);
                r == Ok(p) && plants == old(plants) + [p]
      ensures DistinctIds(old(plants)) ==> DistinctIds(plants)
    {
      var refusal := AdminRefusal(auth);
      if refusal.Some? {
        return Refuse(refusal.value);
      }
      if !PlantFieldsPresent(req) {
        return Fail(400, "Missing required plant fields");
      }
      var p := Plant(NextPlantId(plants), req.name, req.category, req.price.value,
                     req.image, req.description, req.stock.value, req.featured);
      if DistinctIds(plants) {
        NextPlantIdFresh(plants, p);
      }
      plants := plants + [p];
      r := Ok(p);
    }

    /** PUT /api/admin/orders/:orderId/status. The status is checked before the
        order is looked up. */
    method UpdateOrderStatus(auth: Auth, orderId: string, status: string, now: int) returns (r: Reply<Order>)
      modifies this
      ensures plants == old(plants) && users == old(users)
      ensures AdminRefusal(auth).Some? ==> r == Refuse(AdminRefusal(auth).value) && orders == old(orders)
      ensures AdminRefusal(auth).None? && !IsValidStatus(status) ==>
                r == Fail(400, InvalidStatusMessage()) && orders == old(orders)
      ensures AdminRefusal(auth).None? && IsValidStatus(status) &&
              SetStatus(old(orders), orderId, status, now).None? ==>
                r == Fail(404, "Order not found") && orders == old(orders)
      ensures AdminRefusal(auth).None? && IsValidStatus(status) &&
              SetStatus(old(orders), orderId, status, now).Some? ==>
                && orders == SetStatus(old(orders), orderId, status, now).value
                && r.Ok? && r.data.id == orderId && r.data.status == status && r.data.updatedAt == now
                && r.data in orders
                && FindOrder(orders, orderId) == Some(r.data)
                && r.data == FindOrder(old(orders), orderId).value.(status := status, updatedAt := now)
      ensures AllStatusesValid(old(orders)) ==> AllStatusesValid(orders)
    {
      var refusal := AdminRefusal(auth);
      if refusal.Some? {
        return Refuse(refusal.value);
      }
      if !IsValidStatus(status) {
        return Fail(400, InvalidStatusMessage());
      }
      var k := FindIndex(orders, OrderIdTest(orderId));
      if k == -1 {
        return Fail(404, "Order not found");
      }
      orders := orders[k := orders[k].(status := status, updatedAt := now)];
      r := Ok(orders[k]);
    }

    /** GET /api/admin/stats. Like the source, it sorts the stored orders in
        place, newest first, before taking the ten most recent. */
    method AdminStats(auth: Auth) returns (r: Reply<Stats>)
      modifies this
      ensures plants == old(plants) && users == old(users)
      ensures AdminRefusal(auth).Some? ==> r == Refuse(AdminRefusal(auth).value) && orders == old(orders)
      ensures AdminRefusal(auth).None? ==>
                r == Ok(StatsOf(variant, old(orders), |users|, plants)) && orders == RecentFirst(old(orders))
      ensures multiset(orders) == multiset(old(orders))
      ensures AllStatusesValid(old(orders)) ==> AllStatusesValid(orders)
    {
      var refusal := AdminRefusal(auth);
      if refusal.Some? {
        return Refuse(refusal.value);
      }
      var stats := StatsOf(variant, orders, |users|, plants);
      SortSpec(orders, NewerFirst);
      ghost var before := orders;
      orders := RecentFirst(orders);
      forall i | 0 <= i < |orders| ensures orders[i] in multiset(before) {
        assert orders[i] in multiset(orders);
      }
      r := Ok(stats);
    }
  }
}
