/** `PlantService.getPlants` and `getLowStockPlants` of services.js, over the
    plant collection's documents in their stored order: the query built from
    the filters, the sort selected by `sortBy`, and the page cut from the
    sorted result. */
module PlantSearch {
  import opened Wrappers
  import opened Text
  import opened Sequences
  import opened Helpers
  import opened Inventory

  /** The filters and options of `getPlants`, after defaults (`page = 1`,
      `limit = 20`, `sortBy = 'name'`). Strings are "" when absent; a price
      bound is `None` when absent. */
  datatype PlantFilters = PlantFilters(
    category: string, search: string, featured: string, inStock: string,
    minPrice: Option<int>, maxPrice: Option<int>, page: int, limit: int, sortBy: string)

  /** The MongoDB query object `getPlants` builds. */
  datatype Query = Query(
    category: Option<string>, search: Option<string>, featuredOnly: bool, inStockOnly: bool,
    minPrice: Option<int>, maxPrice: Option<int>)

  /** The query, one field per filter given. */
  function BuildQuery(f: PlantFilters): Query
  {
    Query(
      if f.category != "" && f.category != "all" then Some(f.category) else None,
      if f.search != "" then Some(f.search) else None,
      f.featured == "true",
      f.inStock == "true",
      f.minPrice,
      f.maxPrice)
  }

  /** A document matches the query: it is active and meets every condition
      the query holds. The `$regex` search is read as a case-insensitive
      substring test. */
  predicate MatchesQuery(q: Query, p: Plant)
  {
    && p.isActive
    && (q.category.Some? ==> p.category == q.category.value)
    && (q.search.Some? ==> Contains(Lower(p.name), Lower(q.search.value)) ||
                           Contains(Lower(p.description), Lower(q.search.value)))
    && (q.featuredOnly ==> p.featured)
    && (q.inStockOnly ==> p.stock > 0)
    && (q.minPrice.Some? ==> p.price >= q.minPrice.value)
    && (q.maxPrice.Some? ==> p.price <= q.maxPrice.value)
  }

  function QueryTest(q: Query): Plant -> bool
  {
    p => MatchesQuery(q, p)
  }

  /** The built query admits a plant exactly when it is active, in the
      category unless that is absent or `'all'`, mentions the search term,
      is featured if `featured` is `'true'`, in stock if `inStock` is `'true'`,
      and within the inclusive price bounds. */
  lemma BuildQuerySpec(f: PlantFilters, p: Plant)
    ensures MatchesQuery(BuildQuery(f), p) <==>
              && p.isActive
              && (f.category == "" || f.category == "all" || p.category == f.category)
              && (f.search == "" || Contains(Lower(p.name), Lower(f.search)) ||
                                    Contains(Lower(p.description), Lower(f.search)))
              && (f.featured == "true" ==> p.featured)
              && (f.inStock == "true" ==> p.stock > 0)
              && (f.minPrice.None? || f.minPrice.value <= p.price)
              && (f.maxPrice.None? || p.price <= f.maxPrice.value)
  {
  }

  /** Code-point order on strings, as MongoDB compares names without a
      collation (its byte order on UTF-8 agrees with code-point order). */
  predicate StringLe(a: string, b: string)
  {
    if a == [] then true
    else if b == [] then false
    else if a[0] != b[0] then a[0] < b[0]
    else StringLe(a[1..], b[1..])
  }

  lemma {:induction false} StringLeTotal(a: string, b: string)
    ensures StringLe(a, b) || StringLe(b, a)
  {
    if a != [] && b != [] && a[0] == b[0] {
      StringLeTotal(a[1..], b[1..]);
    }
  }

  lemma {:induction false} StringLeTransitive(a: string, b: string, c: string)
    requires StringLe(a, b) && StringLe(b, c)
    ensures StringLe(a, c)
  {
    if a != [] && b != [] && c != [] && a[0] == b[0] == c[0] {
      StringLeTransitive(a[1..], b[1..], c[1..]);
    }
  }

  /** The sort object `sortBy` selects, as the order a plant may precede another in. */
  function SortOrder(sortBy: string): (Plant, Plant) -> bool
  {
    match sortBy
    case "price_asc" => (a: Plant, b: Plant) => a.price <= b.price
    case "price_desc" => (a: Plant, b: Plant) => a.price >= b.price
    case "stock" => (a: Plant, b: Plant) => a.stock >= b.stock
    case _ => (a: Plant, b: Plant) => StringLe(a.name, b.name)
  }

  /** Every order `sortBy` can select ranks any two plants and is transitive. */
  lemma SortOrderPreorder(sortBy: string)
    ensures TotalPreorder(SortOrder(sortBy))
  {
    if sortBy !in {"price_asc", "price_desc", "stock"} {
      var le := SortOrder(sortBy);
      forall a: Plant, b: Plant ensures le(a, b) || le(b, a) {
        StringLeTotal(a.name, b.name);
      }
      forall a: Plant, b: Plant, c: Plant | le(a, b) && le(b, c) ensures le(a, c) {
        StringLeTransitive(a.name, b.name, c.name);
      }
    }
  }

  /** `.skip((page - 1) * limit).limit(limit)`. */
  function Page<T>(s: seq<T>, page: int, limit: int): (r: seq<T>)
    requires page >= 1 && limit >= 1
    ensures var skip := (page - 1) * limit;
            && |r| == (if skip >= |s| then 0 else if skip + limit <= |s| then limit else |s| - skip)
            && forall i :: 0 <= i < |r| ==> r[i] == s[skip + i]
  {
    var skip := (page - 1) * limit;
    assert skip >= 0 by {
      assert (page - 1) * limit >= 0 * limit;
    }
    if skip >= |s| then []
    else if skip + limit <= |s| then s[skip..skip + limit]
    else s[skip..]
  }

  /** The result of `getPlants`. */
  datatype PlantsPage = PlantsPage(plants: seq<Plant>, pagination: Pagination)

  /** `getPlants`: the matching documents, sorted, with one page cut out and
      the pagination record for the number that matched. */
  function GetPlants(catalogue: seq<Plant>, f: PlantFilters): PlantsPage
    requires f.page >= 1 && f.limit >= 1
  {
    var matching := Filter(catalogue, QueryTest(BuildQuery(f)));
    PlantsPage(Page(Sort(matching, SortOrder(f.sortBy)), f.page, f.limit),
               CreatePagination(|matching|, f.page, f.limit))
  }

  /** A page is a run of the sequence: at most `limit` long, drawn from it,
      and sorted when the sequence is. */
  lemma PageSpec<T>(s: seq<T>, page: int, limit: int, le: (T, T) -> bool)
    requires page >= 1 && limit >= 1
    ensures |Page(s, page, limit)| <= limit
    ensures multiset(Page(s, page, limit)) <= multiset(s)
    ensures Sorted(s, le) ==> Sorted(Page(s, page, limit), le)
  {
    var r := Page(s, page, limit);
    if r != [] {
      var skip := (page - 1) * limit;
      var stop := skip + |r|;
      assert r == s[skip..stop];
      assert s == s[..skip] + r + s[stop..];
      assert multiset(s) == multiset(s[..skip]) + multiset(r) + multiset(s[stop..]);
    }
  }

  /** A page holds only matching plants from the catalogue, in the selected
      order, and at most `limit` of them; the pagination counts every match. */
  lemma GetPlantsSpec(catalogue: seq<Plant>, f: PlantFilters)
    requires f.page >= 1 && f.limit >= 1
    ensures var r := GetPlants(catalogue, f);
            var matching := Filter(catalogue, QueryTest(BuildQuery(f)));
            && r.pagination == CreatePagination(|matching|, f.page, f.limit)
            && |r.plants| <= f.limit
            && (forall p :: p in r.plants ==> p in catalogue && MatchesQuery(BuildQuery(f), p))
            && Sorted(r.plants, SortOrder(f.sortBy))
            && multiset(r.plants) <= multiset(matching)
  {
    var q := BuildQuery(f);
    var matching := Filter(catalogue, QueryTest(q));
    FilterSpec(catalogue, QueryTest(q));
    SortSpec(matching, SortOrder(f.sortBy));
    SortOrderPreorder(f.sortBy);
    var sorted := Sort(matching, SortOrder(f.sortBy));
    PageSpec(sorted, f.page, f.limit, SortOrder(f.sortBy));
    var r := Page(sorted, f.page, f.limit);
    forall p | p in r ensures p in catalogue && MatchesQuery(q, p) {
      assert p in multiset(r);
      assert p in multiset(matching);
    }
  }

  /** `getLowStockPlants(threshold)`: the active plants below the threshold,
      fewest in stock first. */
  function GetLowStockPlants(catalogue: seq<Plant>, threshold: int): seq<Plant>
  {
    Sort(Filter(catalogue, LowStockTest(threshold)), FewerInStock)
  }

  function LowStockTest(threshold: int): Plant -> bool
  {
    (p: Plant) => p.isActive && p.stock < threshold
  }

  function FewerInStock(a: Plant, b: Plant): bool
  {
    a.stock <= b.stock
  }

  /** The low-stock list is ordered by rising stock and holds each active
      plant below the threshold exactly as often as the catalogue does. */
  lemma GetLowStockPlantsSpec(catalogue: seq<Plant>, threshold: int)
    ensures var r := GetLowStockPlants(catalogue, threshold);
            && (forall i, j :: 0 <= i < j < |r| ==> r[i].stock <= r[j].stock)
            && multiset(r) == multiset(Filter(catalogue, LowStockTest(threshold)))
            && (forall p :: p in r <==> p in catalogue && p.isActive && p.stock < threshold)
  {
    var low := Filter(catalogue, LowStockTest(threshold));
    FilterSpec(catalogue, LowStockTest(threshold));
    SortSpec(low, FewerInStock);
    assert TotalPreorder(FewerInStock);
    var r := GetLowStockPlants(catalogue, threshold);
    forall p ensures p in r <==> p in low {
      assert p in r <==> p in multiset(r);
    }
  }
}
