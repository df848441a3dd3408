/** The plant catalogue as both Express servers query it: GET /api/plants
    (category, featured and search filters), GET /api/plants/:id, and the id
    an admin-added plant receives. The two servers run the same code for the
    first two. */
module Catalogue {
  import opened Wrappers
  import opened Text
  import opened Sequences

  /** A plant record. Prices and stock are whole rupees and units. */
  datatype Plant = Plant(
    id: int, name: string, category: string, price: int,
    image: string, description: string, stock: int, featured: bool)

  /** The query string of GET /api/plants. An absent parameter is "", which
      the handler's truthiness tests treat the same way. */
  datatype PlantQuery = PlantQuery(category: string, featured: string, search: string)

  /** The response body `{data, count}`. */
  datatype Listing = Listing(data: seq<Plant>, count: nat)

  /** `plant.category.toLowerCase() === category.toLowerCase()`. */
  predicate InCategory(p: Plant, category: string)
  {
    Lower(p.category) == Lower(category)
  }

  /** The lower-cased name or description includes the (lower-cased) term. */
  predicate MentionsTerm(p: Plant, term: string)
  {
    Contains(Lower(p.name), term) || Contains(Lower(p.description), term)
  }

  function CategoryTest(category: string): Plant -> bool
  {
    p => InCategory(p, category)
  }

  function FeaturedTest(): Plant -> bool
  {
    (p: Plant) => p.featured
  }

  function SearchTest(term: string): Plant -> bool
  {
    p => MentionsTerm(p, term)
  }

  /** GET /api/plants: the three filters, each applied only when its
      parameter is given (`featured` only when it is exactly "true"). */
  function ListPlants(plants: seq<Plant>, q: PlantQuery): (r: Listing)
    ensures r.count == |r.data|
  {
    var byCategory := if q.category != "" then Filter(plants, CategoryTest(q.category)) else plants;
    var byFeatured := if q.featured == "true" then Filter(byCategory, FeaturedTest()) else byCategory;
    var bySearch := if q.search != "" then Filter(byFeatured, SearchTest(Lower(q.search))) else byFeatured;
    Listing(bySearch, |bySearch|)
  }

  /** A plant passes every filter the query switches on. */
  predicate Selected(p: Plant, q: PlantQuery)
  {
    && (q.category != "" ==> InCategory(p, q.category))
    && (q.featured == "true" ==> p.featured)
    && (q.search != "" ==> MentionsTerm(p, Lower(q.search)))
  }

  function SelectedBy(q: PlantQuery): Plant -> bool
  {
    p => Selected(p, q)
  }

  /** A filter stage that is switched off passes everything through. */
  lemma StageIsFilter<T>(s: seq<T>, on: bool, f: T -> bool, h: T -> bool)
    requires forall x :: h(x) == (on ==> f(x))
    ensures (if on then Filter(s, f) else s) == Filter(s, h)
  {
    if on {
      FilterSame(s, f, h);
    } else {
      FilterAll(s, h);
    }
  }

  /** The three successive filters amount to one filter by `Selected`. */
  lemma ListPlantsExact(plants: seq<Plant>, q: PlantQuery)
    ensures ListPlants(plants, q).data == Filter(plants, SelectedBy(q))
  {
    var h1 := (p: Plant) => q.category != "" ==> InCategory(p, q.category);
    var h2 := (p: Plant) => q.featured == "true" ==> p.featured;
    var h3 := (p: Plant) => q.search != "" ==> MentionsTerm(p, Lower(q.search));
    var h12 := (p: Plant) => h1(p) && h2(p);
    var byCategory := if q.category != "" then Filter(plants, CategoryTest(q.category)) else plants;
    StageIsFilter(plants, q.category != "", CategoryTest(q.category), h1);
    var byFeatured := if q.featured == "true" then Filter(byCategory, FeaturedTest()) else byCategory;
    StageIsFilter(byCategory, q.featured == "true", FeaturedTest(), h2);
    FilterFuse(plants, h1, h2, h12);
    StageIsFilter(byFeatured, q.search != "", SearchTest(Lower(q.search)), h3);
    FilterFuse(plants, h12, h3, SelectedBy(q));
  }

  /** The listing keeps the catalogue's order, holds exactly the plants that
      pass every active filter, and `count` is its length. */
  lemma ListPlantsSound(plants: seq<Plant>, q: PlantQuery)
    ensures IsSubsequence(ListPlants(plants, q).data, plants)
    ensures forall p :: p in ListPlants(plants, q).data <==> p in plants && Selected(p, q)
    ensures ListPlants(plants, q).count == |ListPlants(plants, q).data| <= |plants|
  {
    ListPlantsExact(plants, q);
    FilterSpec(plants, SelectedBy(q));
  }

  function IdTest(id: int): Plant -> bool
  {
    (p: Plant) => p.id == id
  }

  /** GET /api/plants/:id: the first plant whose id equals the parsed
      parameter; `None` stands for a parameter `parseInt` turns into NaN,
      which equals no id. */
  function GetPlant(plants: seq<Plant>, id: Option<int>): (r: Reply<Plant>)
    ensures r.Ok? <==> id.Some? && exists i :: 0 <= i < |plants| && plants[i].id == id.value
    ensures r.Ok? ==>
              && r.data.id == id.value
              && exists i :: 0 <= i < |plants| && plants[i] == r.data &&
                   forall j :: 0 <= j < i ==> plants[j].id != id.value
    ensures r.Fail? ==> r == Fail(404, "Plant not found")
  {
    if id.None? then Fail(404, "Plant not found")
    else
      var k := FindIndex(plants, IdTest(id.value));
      if k == -1 then Fail(404, "Plant not found") else Ok(plants[k])
  }

  /** `Math.max(...plants.map(p => p.id))`. */
  function MaxId(plants: seq<Plant>): (m: int)
    requires plants != []
    ensures forall i :: 0 <= i < |plants| ==> plants[i].id <= m
    ensures exists i :: 0 <= i < |plants| && plants[i].id == m
  {
    if |plants| == 1 then plants[0].id
    else
      var m := MaxId(plants[1..]);
      assert forall i :: 1 <= i < |plants| ==> plants[i] == plants[1..][i - 1];
      if plants[0].id > m then plants[0].id else m
  }

  /** The id an added plant receives: one more than the largest id, or 1 in
      an empty catalogue. */
  function NextPlantId(plants: seq<Plant>): (id: int)
    ensures forall i :: 0 <= i < |plants| ==> plants[i].id < id
    ensures plants == [] ==> id == 1
    ensures plants != [] ==> exists i :: 0 <= i < |plants| && plants[i].id == id - 1
  {
    if |plants| > 0 then MaxId(plants) + 1 else 1
  }

  predicate DistinctIds(plants: seq<Plant>)
  {
    forall i, j :: 0 <= i < j < |plants| ==> plants[i].id != plants[j].id
  }

  /** Appending a plant with the next id keeps ids distinct. */
  lemma NextPlantIdFresh(plants: seq<Plant>, p: Plant)
    requires DistinctIds(plants) && p.id == NextPlantId(plants)
    ensures DistinctIds(plants + [p])
  {
  }
}
