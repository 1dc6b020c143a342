/**
 * The location catalog and the query filters the `/drink`, `/filterCategories` and
 * `/filter-nearby` handlers build from optional query-string parameters.
 *
 * A filter is the MongoDB query document: one clause per field. `Location.find(filter)`
 * is `Find`, the catalog records that satisfy every clause, in catalog order.
 */
module Catalog {
  import opened Wrappers
  import opened Http
  import Strings

  /** A stored place; optional string fields may be missing, list fields default to []. */
  datatype Location = Location(
    locationName: string,
    locationAddress: string,
    placeCategory: Option<string>,
    postalCode: Option<string>,
    priceRange: Option<string>,
    keywords: seq<string>,
    filters: seq<string>)

  /** The optional query-string parameters of the filtering handlers. */
  datatype Query = Query(
    placeCategory: Option<string>,
    postalCode: Option<string>,
    keywords: Option<string>,
    priceRange: Option<string>,
    filters: Option<string>)

  /** The fields a filter can constrain. */
  datatype Field = PlaceCategory | PostalCode | Keywords | PriceRange | Filters

  /** A clause on one field: plain equality, `$in` (any of) or `$all` (every one of). */
  datatype Condition = Equals(value: string) | AnyOf(tokens: seq<string>) | AllOf(tokens: seq<string>)

  type Filter = map<Field, Condition>

  /** The category `/drink` always searches. */
  const DRINK_CATEGORY: string := "prendre_un_verre"

  /** Query-string lists are comma-separated. */
  const TOKEN_SEPARATOR: char := ','

  /** The values a record holds in a field: zero or one for a string field, the list for a list field. */
  function FieldValues(l: Location, k: Field): seq<string>
  {
    match k
    case PlaceCategory => OptionValues(l.placeCategory)
    case PostalCode => OptionValues(l.postalCode)
    case Keywords => l.keywords
    case PriceRange => OptionValues(l.priceRange)
    case Filters => l.filters
  }

  function OptionValues(o: Option<string>): seq<string>
  {
    if o.Some? then [o.value] else []
  }

  /** MongoDB's reading of a clause against the values of a field (`$all` of [] matches nothing). */
  predicate Holds(c: Condition, values: seq<string>)
  {
    match c
    case Equals(v) => v in values
    case AnyOf(ts) => exists t :: t in ts && t in values
    case AllOf(ts) => |ts| > 0 && forall t :: t in ts ==> t in values
  }

  /**
   * A record matches a filter when it satisfies the filter's clause on each field that has
   * one; the empty filter matches all.
   */
  predicate Matches(f: Filter, l: Location)
  {
    ClauseHolds(f, l, PlaceCategory) && ClauseHolds(f, l, PostalCode) && ClauseHolds(f, l, Keywords) &&
    ClauseHolds(f, l, PriceRange) && ClauseHolds(f, l, Filters)
  }

  predicate ClauseHolds(f: Filter, l: Location, k: Field)
  {
    k in f ==> Holds(f[k], FieldValues(l, k))
  }

  /** Matching is the conjunction of all clauses of the filter, whatever fields it names. */
  lemma MatchesEveryClause(f: Filter, l: Location)
    ensures Matches(f, l) <==> forall k :: k in f ==> Holds(f[k], FieldValues(l, k))
  {
    if Matches(f, l) {
      forall k | k in f ensures Holds(f[k], FieldValues(l, k)) {
        assert ClauseHolds(f, l, k);
      }
    }
  }

  /** `Location.find(f)`: the matching records in catalog order. */
  function Find(f: Filter, catalog: seq<Location>): (found: seq<Location>)
    ensures |found| <= |catalog|
  {
    if catalog == [] then []
    else
      var rest := Find(f, catalog[1..]);
      if Matches(f, catalog[0]) then [catalog[0]] + rest else rest
  }

  /** `find` returns exactly the catalog records that match the filter. */
  lemma {:induction false} FindMeaning(f: Filter, catalog: seq<Location>)
    ensures forall l :: l in Find(f, catalog) <==> l in catalog && Matches(f, l)
    decreases |catalog|
  {
    if catalog != [] {
      FindMeaning(f, catalog[1..]);
      assert forall l :: l in catalog <==> l == catalog[0] || l in catalog[1..];
    }
  }

  /** The clause a query contributes on one field: one per truthy parameter, none otherwise. */
  function Clause(q: Query, k: Field): Option<Condition>
  {
    match k
    case PlaceCategory =>
      if Truthy(q.placeCategory) then Some(Equals(q.placeCategory.value)) else None
    case PostalCode =>
      if Truthy(q.postalCode) then Some(Equals(q.postalCode.value)) else None
    case Keywords =>
      if Truthy(q.keywords) then Some(AnyOf(Strings.Split(q.keywords.value, TOKEN_SEPARATOR))) else None
    case PriceRange =>
      if Truthy(q.priceRange) then Some(Equals(q.priceRange.value)) else None
    case Filters =>
      if Truthy(q.filters) then Some(AllOf(Strings.Split(q.filters.value, TOKEN_SEPARATOR))) else None
  }

  const ALL_FIELDS: set<Field> := {PlaceCategory, PostalCode, Keywords, PriceRange, Filters}

  /** The filter a query compiles to. */
  function CompiledFilter(q: Query): Filter
  {
    map k | k in ALL_FIELDS && Clause(q, k).Some? :: Clause(q, k).value
  }

  /** The `/drink` query: the category is fixed and the request's own category is not read. */
  function DrinkQuery(q: Query): Query
  {
    q.(placeCategory := Some(DRINK_CATEGORY))
  }

  /** The `/filter-nearby` query: only the category. */
  function CategoryOnly(category: string): Query
  {
    Query(Some(category), None, None, None, None)
  }

  /** The clause a filter holds on a field, if any. */
  function Lookup(f: Filter, k: Field): Option<Condition>
  {
    if k in f then Some(f[k]) else None
  }

  /**
   * What a query means, stated directly on the record: equality for category, postal code
   * and price; at least one shared keyword; every requested filter tag present.
   */
  predicate Satisfies(q: Query, l: Location)
  {
    (Truthy(q.placeCategory) ==> l.placeCategory == q.placeCategory) &&
    (Truthy(q.postalCode) ==> l.postalCode == q.postalCode) &&
    (Truthy(q.keywords) ==>
       exists t :: t in Strings.Split(q.keywords.value, TOKEN_SEPARATOR) && t in l.keywords) &&
    (Truthy(q.priceRange) ==> l.priceRange == q.priceRange) &&
    (Truthy(q.filters) ==>
       forall t :: t in Strings.Split(q.filters.value, TOKEN_SEPARATOR) ==> t in l.filters)
  }

  lemma LookupCompiled(q: Query, k: Field)
    ensures Lookup(CompiledFilter(q), k) == Clause(q, k)
  {
    assert k in ALL_FIELDS;
  }

  /** Two filters with the same clause on every field are the same filter. */
  lemma FilterExtensionality(f: Filter, g: Filter)
    requires forall k :: Lookup(f, k) == Lookup(g, k)
    ensures f == g
  {
    assert f.Keys == g.Keys by {
      forall k ensures k in f <==> k in g {
        assert Lookup(f, k) == Lookup(g, k);
      }
    }
    forall k | k in f ensures f[k] == g[k] {
      assert Lookup(f, k) == Lookup(g, k);
    }
  }

  /** The compiled filter selects exactly the records that satisfy the query. */
  lemma {:induction false} CompiledFilterMeaning(q: Query, l: Location)
    ensures Matches(CompiledFilter(q), l) <==> Satisfies(q, l)
  {
    var f := CompiledFilter(q);
    forall k ensures k in f ==> (Holds(f[k], FieldValues(l, k)) <==>
                                 (match k
                                  case PlaceCategory => l.placeCategory == q.placeCategory
                                  case PostalCode => l.postalCode == q.postalCode
                                  case PriceRange => l.priceRange == q.priceRange
                                  case Keywords => exists t :: t in Strings.Split(q.keywords.value, TOKEN_SEPARATOR) && t in l.keywords
                                  case Filters => forall t :: t in Strings.Split(q.filters.value, TOKEN_SEPARATOR) ==> t in l.filters))
    {
      LookupCompiled(q, k);
    }
    forall k ensures k in f <==> Clause(q, k).Some? {
      LookupCompiled(q, k);
    }
    if Matches(f, l) {
      assert Satisfies(q, l) by {
        if Truthy(q.placeCategory) { assert PlaceCategory in f; }
        if Truthy(q.postalCode) { assert PostalCode in f; }
        if Truthy(q.keywords) { assert Keywords in f; }
        if Truthy(q.priceRange) { assert PriceRange in f; }
        if Truthy(q.filters) { assert Filters in f; }
      }
    }
  }

  /** With no truthy parameter the filter is `{}` and every record is found, in order. */
  lemma {:induction false} EmptyQueryFindsAll(q: Query, catalog: seq<Location>)
    requires !Truthy(q.placeCategory) && !Truthy(q.postalCode) && !Truthy(q.keywords)
    requires !Truthy(q.priceRange) && !Truthy(q.filters)
    ensures CompiledFilter(q) == map[]
    ensures Find(CompiledFilter(q), catalog) == catalog
    decreases |catalog|
  {
    forall k ensures Lookup(CompiledFilter(q), k) == Lookup(map[], k) {
      LookupCompiled(q, k);
    }
    FilterExtensionality(CompiledFilter(q), map[]);
    if catalog != [] {
      EmptyQueryFindsAll(q, catalog[1..]);
      assert catalog == [catalog[0]] + catalog[1..];
    }
  }

  /**
   * Adding parameters only narrows the search: a query that keeps every truthy parameter
   * of `q` finds a sub-list of what `q` finds.
   */
  lemma {:induction false} MoreParametersNarrow(q: Query, q': Query, catalog: seq<Location>)
    requires Truthy(q.placeCategory) ==> q'.placeCategory == q.placeCategory
    requires Truthy(q.postalCode) ==> q'.postalCode == q.postalCode
    requires Truthy(q.keywords) ==> q'.keywords == q.keywords
    requires Truthy(q.priceRange) ==> q'.priceRange == q.priceRange
    requires Truthy(q.filters) ==> q'.filters == q.filters
    ensures forall l :: l in Find(CompiledFilter(q'), catalog) ==> l in Find(CompiledFilter(q), catalog)
  {
    FindMeaning(CompiledFilter(q'), catalog);
    FindMeaning(CompiledFilter(q), catalog);
    forall l | l in Find(CompiledFilter(q'), catalog)
      ensures l in Find(CompiledFilter(q), catalog)
    {
      CompiledFilterMeaning(q', l);
      CompiledFilterMeaning(q, l);
    }
  }

  /** `Find` keeps catalog order: the matches of a concatenation are concatenated matches. */
  lemma {:induction false} FindConcat(f: Filter, a: seq<Location>, b: seq<Location>)
    ensures Find(f, a + b) == Find(f, a) + Find(f, b)
    decreases |a|
  {
    if a == [] {
      var rest := Find(f, b);
      assert a + b == b && Find(f, a) == [];
      assert Find(f, a) + rest == rest;
    } else {
      var c := a + b;
      assert c[0] == a[0] && c[1..] == a[1..] + b;
      FindConcat(f, a[1..], b);
      if Matches(f, a[0]) {
        assert Find(f, c) == [a[0]] + (Find(f, a[1..]) + Find(f, b));
        assert Find(f, a) == [a[0]] + Find(f, a[1..]);
      } else {
        assert Find(f, c) == Find(f, a[1..]) + Find(f, b);
        assert Find(f, a) == Find(f, a[1..]);
      }
    }
  }

  /**
   * Adds the clauses both list handlers share, field by field, to a filter that holds at
   * most a category clause.
   */
  method AddOptionalClauses(base: Filter, q: Query) returns (f: Filter)
    requires base.Keys <= {PlaceCategory}
    ensures Lookup(f, PlaceCategory) == Lookup(base, PlaceCategory)
    ensures forall k :: k != PlaceCategory ==> Lookup(f, k) == Clause(q, k)
  {
    f := base;
    if Truthy(q.postalCode) {
      f := f[PostalCode := Equals(q.postalCode.value)];
    }
    if Truthy(q.keywords) {
      f := f[Keywords := AnyOf(Strings.Split(q.keywords.value, TOKEN_SEPARATOR))];
    }
    if Truthy(q.priceRange) {
      f := f[PriceRange := Equals(q.priceRange.value)];
    }
    if Truthy(q.filters) {
      f := f[Filters := AllOf(Strings.Split(q.filters.value, TOKEN_SEPARATOR))];
    }
  }

  /** The `/filterCategories` (and `/filter-nearby`) filter, built from `{}`. */
  method BuildCategoryFilter(q: Query) returns (f: Filter)
    ensures f == CompiledFilter(q)
    ensures forall l :: Matches(f, l) <==> Satisfies(q, l)
  {
    f := map[];
    if Truthy(q.placeCategory) {
      f := f[PlaceCategory := Equals(q.placeCategory.value)];
    }
    f := AddOptionalClauses(f, q);
    forall k ensures Lookup(f, k) == Lookup(CompiledFilter(q), k) {
      LookupCompiled(q, k);
    }
    FilterExtensionality(f, CompiledFilter(q));
    forall l ensures Matches(f, l) <==> Satisfies(q, l) {
      CompiledFilterMeaning(q, l);
    }
  }

  /** The `/drink` filter, built from `{ placeCategory: "prendre_un_verre" }`. */
  method BuildDrinkFilter(q: Query) returns (f: Filter)
    ensures f == CompiledFilter(DrinkQuery(q))
    ensures forall l :: Matches(f, l) <==> Satisfies(DrinkQuery(q), l)
    ensures forall l :: Matches(f, l) ==> l.placeCategory == Some(DRINK_CATEGORY)
  {
    f := map[PlaceCategory := Equals(DRINK_CATEGORY)];
    f := AddOptionalClauses(f, q);
    forall k ensures Lookup(f, k) == Lookup(CompiledFilter(DrinkQuery(q)), k) {
      LookupCompiled(DrinkQuery(q), k);
    }
    FilterExtensionality(f, CompiledFilter(DrinkQuery(q)));
    forall l ensures Matches(f, l) <==> Satisfies(DrinkQuery(q), l) {
      CompiledFilterMeaning(DrinkQuery(q), l);
    }
  }

  /** `GET /filterCategories`: 404 when nothing matches, otherwise 200 with the matches. */
  method FilterCategories(q: Query, catalog: seq<Location>) returns (reply: Reply<seq<Location>>)
    ensures reply.status == NOT_FOUND <==> forall l :: l in catalog ==> !Satisfies(q, l)
    ensures reply.status == NOT_FOUND ==> reply.payload == None
    ensures reply.status != NOT_FOUND ==>
              reply.status == OK && reply.payload == Some(Find(CompiledFilter(q), catalog))
    ensures reply.status == OK ==>
              forall l :: l in reply.payload.value <==> l in catalog && Satisfies(q, l)
  {
    var f := BuildCategoryFilter(q);
    var locations := Find(f, catalog);
    FindMeaning(f, catalog);
    if |locations| == 0 {
      forall l | l in catalog ensures !Matches(f, l) {
        assert l !in locations;
      }
      reply := Reply(NOT_FOUND, None);
      return;
    }
    assert locations[0] in locations;
    reply := Reply(OK, Some(locations));
  }

  /** `GET /drink`: the same as `/filterCategories` with the category fixed to the drink category. */
  method Drink(q: Query, catalog: seq<Location>) returns (reply: Reply<seq<Location>>)
    ensures reply.status == NOT_FOUND <==> forall l :: l in catalog ==> !Satisfies(DrinkQuery(q), l)
    ensures reply.status == NOT_FOUND ==> reply.payload == None
    ensures reply.status != NOT_FOUND ==>
              reply.status == OK && reply.payload == Some(Find(CompiledFilter(DrinkQuery(q)), catalog))
    ensures reply.status == OK ==>
              forall l :: l in reply.payload.value ==> l.placeCategory == Some(DRINK_CATEGORY)
  {
    var f := BuildDrinkFilter(q);
    var locations := Find(f, catalog);
    FindMeaning(f, catalog);
    if |locations| == 0 {
      forall l | l in catalog ensures !Matches(f, l) {
        assert l !in locations;
      }
      reply := Reply(NOT_FOUND, None);
      return;
    }
    assert locations[0] in locations;
    reply := Reply(OK, Some(locations));
  }
}
