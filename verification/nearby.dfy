/**
 * `GET /filter-nearby`: validate the request, geocode the user's address, fetch the
 * locations of the requested category, geocode each of them in catalog order, keep those
 * within `maxDistance`, and sort the kept ones by distance.
 *
 * The geocoding web service is a parameter `geocode` (None for an address it cannot
 * resolve or a request that throws), the haversine formula a parameter `distance`. Every
 * outbound call is recorded in a trace, so that the order and number of calls can be stated.
 */
module Nearby {
  import opened Wrappers
  import opened Http
  import opened Catalog
  import opened Ranking

  datatype Coord = Coord(lat: real, lng: real)

  /**
   * The query string of `/filter-nearby`. A `maxDistance` that is absent or not a number
   * is None: JavaScript then compares every distance to NaN or undefined, which is false.
   */
  datatype NearbyQuery = NearbyQuery(address: Option<string>, maxDistance: Option<real>, placeCategory: Option<string>)

  /** The calls the handler makes to the outside, in order. */
  datatype Call = GeocodeCall(address: string) | FindCall(filter: Filter)

  /** `distance <= maxDistance` as JavaScript evaluates it. */
  predicate WithinRange(d: real, maxDistance: Option<real>)
  {
    maxDistance.Some? && d <= maxDistance.value
  }

  /** The entry one candidate contributes: none when its geocode fails or it is too far. */
  function Score(origin: Coord, l: Location, geocode: string -> Option<Coord>,
                 distance: (Coord, Coord) -> real, maxDistance: Option<real>): seq<Ranked>
  {
    match geocode(l.locationAddress)
    case None => []
    case Some(c) =>
      var d := distance(origin, c);
      if WithinRange(d, maxDistance) then [Ranked(l, d, c.lat, c.lng)] else []
  }

  /** What the loop pushes onto `nearbyLocations`, in candidate order. */
  function Kept(origin: Coord, candidates: seq<Location>, geocode: string -> Option<Coord>,
                distance: (Coord, Coord) -> real, maxDistance: Option<real>): seq<Ranked>
  {
    if candidates == [] then []
    else
      Kept(origin, candidates[..|candidates| - 1], geocode, distance, maxDistance) +
      Score(origin, candidates[|candidates| - 1], geocode, distance, maxDistance)
  }

  /** A result entry that is justified: its coordinates are its location's geocode, its distance is within range. */
  predicate Accepted(r: Ranked, origin: Coord, geocode: string -> Option<Coord>,
                     distance: (Coord, Coord) -> real, maxDistance: Option<real>)
  {
    geocode(r.location.locationAddress) == Some(Coord(r.latitude, r.longitude)) &&
    r.distance == distance(origin, Coord(r.latitude, r.longitude)) &&
    WithinRange(r.distance, maxDistance)
  }

  /** The one geocode call per candidate, in order. */
  predicate GeocodesEach(calls: seq<Call>, candidates: seq<Location>)
  {
    |calls| == |candidates| &&
    forall k :: 0 <= k < |candidates| ==> calls[k] == GeocodeCall(candidates[k].locationAddress)
  }

  /** Appending one candidate appends its entry, if any. */
  lemma KeptSnoc(origin: Coord, s: seq<Location>, l: Location, geocode: string -> Option<Coord>,
                 distance: (Coord, Coord) -> real, maxDistance: Option<real>)
    ensures Kept(origin, s + [l], geocode, distance, maxDistance) ==
            Kept(origin, s, geocode, distance, maxDistance) + Score(origin, l, geocode, distance, maxDistance)
  {
    assert (s + [l])[..|s|] == s;
  }

  lemma {:induction false} KeptConcat(origin: Coord, a: seq<Location>, b: seq<Location>,
                                      geocode: string -> Option<Coord>, distance: (Coord, Coord) -> real,
                                      maxDistance: Option<real>)
    ensures Kept(origin, a + b, geocode, distance, maxDistance) ==
            Kept(origin, a, geocode, distance, maxDistance) + Kept(origin, b, geocode, distance, maxDistance)
    decreases |b|
  {
    if b == [] {
      assert a + b == a;
    } else {
      var b', last := b[..|b| - 1], b[|b| - 1];
      var scored := Score(origin, last, geocode, distance, maxDistance);
      calc {
        Kept(origin, a + b, geocode, distance, maxDistance);
        { assert a + b == (a + b') + [last]; }
        Kept(origin, (a + b') + [last], geocode, distance, maxDistance);
        { KeptSnoc(origin, a + b', last, geocode, distance, maxDistance); }
        Kept(origin, a + b', geocode, distance, maxDistance) + scored;
        { KeptConcat(origin, a, b', geocode, distance, maxDistance); }
        Kept(origin, a, geocode, distance, maxDistance) + Kept(origin, b', geocode, distance, maxDistance) + scored;
        { KeptSnoc(origin, b', last, geocode, distance, maxDistance); assert b' + [last] == b; }
        Kept(origin, a, geocode, distance, maxDistance) + Kept(origin, b, geocode, distance, maxDistance);
      }
    }
  }

  /** Every kept entry comes from a candidate and is justified by its geocode and its distance. */
  lemma {:induction false} KeptSound(origin: Coord, candidates: seq<Location>, geocode: string -> Option<Coord>,
                                     distance: (Coord, Coord) -> real, maxDistance: Option<real>)
    ensures forall r :: r in Kept(origin, candidates, geocode, distance, maxDistance) ==>
              r.location in candidates && Accepted(r, origin, geocode, distance, maxDistance)
    decreases |candidates|
  {
    if candidates != [] {
      var init := candidates[..|candidates| - 1];
      KeptSound(origin, init, geocode, distance, maxDistance);
      assert forall l :: l in init ==> l in candidates;
    }
  }

  /** Every candidate that geocodes to a point within range is kept, with that point and distance. */
  lemma {:induction false} KeptComplete(origin: Coord, candidates: seq<Location>, geocode: string -> Option<Coord>,
                                        distance: (Coord, Coord) -> real, maxDistance: Option<real>, i: nat)
    requires i < |candidates|
    requires geocode(candidates[i].locationAddress).Some?
    requires WithinRange(distance(origin, geocode(candidates[i].locationAddress).value), maxDistance)
    ensures var c := geocode(candidates[i].locationAddress).value;
            Ranked(candidates[i], distance(origin, c), c.lat, c.lng) in Kept(origin, candidates, geocode, distance, maxDistance)
    decreases |candidates|
  {
    if i < |candidates| - 1 {
      KeptComplete(origin, candidates[..|candidates| - 1], geocode, distance, maxDistance, i);
    }
  }

  /** Failure isolation: a candidate whose geocode fails changes nothing else in the result. */
  lemma KeptSkipsFailure(origin: Coord, before: seq<Location>, failed: Location, after: seq<Location>,
                         geocode: string -> Option<Coord>, distance: (Coord, Coord) -> real,
                         maxDistance: Option<real>)
    requires geocode(failed.locationAddress).None?
    ensures Kept(origin, before + [failed] + after, geocode, distance, maxDistance) ==
            Kept(origin, before + after, geocode, distance, maxDistance)
  {
    var skipped := Score(origin, failed, geocode, distance, maxDistance);
    assert skipped == [];
    calc {
      Kept(origin, before + [failed] + after, geocode, distance, maxDistance);
      { KeptConcat(origin, before + [failed], after, geocode, distance, maxDistance); }
      Kept(origin, before + [failed], geocode, distance, maxDistance) +
      Kept(origin, after, geocode, distance, maxDistance);
      { KeptSnoc(origin, before, failed, geocode, distance, maxDistance); }
      Kept(origin, before, geocode, distance, maxDistance) + skipped +
      Kept(origin, after, geocode, distance, maxDistance);
      { KeptConcat(origin, before, after, geocode, distance, maxDistance); }
      Kept(origin, before + after, geocode, distance, maxDistance);
    }
  }

  /** Without a usable `maxDistance` nothing is kept. */
  lemma {:induction false} KeptNeedsMaxDistance(origin: Coord, candidates: seq<Location>,
                                                geocode: string -> Option<Coord>, distance: (Coord, Coord) -> real)
    ensures Kept(origin, candidates, geocode, distance, None) == []
    decreases |candidates|
  {
    if candidates != [] {
      KeptNeedsMaxDistance(origin, candidates[..|candidates| - 1], geocode, distance);
    }
  }

  /**
   * The loop over the candidates: one geocode call each, in order; a failed call skips that
   * candidate and the loop goes on.
   */
  method CollectNearby(origin: Coord, candidates: seq<Location>, geocode: string -> Option<Coord>,
                       distance: (Coord, Coord) -> real, maxDistance: Option<real>)
    returns (nearby: seq<Ranked>, calls: seq<Call>)
    ensures nearby == Kept(origin, candidates, geocode, distance, maxDistance)
    ensures GeocodesEach(calls, candidates)
  {
    nearby, calls := [], [];
    var i := 0;
    while i < |candidates|
      invariant 0 <= i <= |candidates|
      invariant nearby == Kept(origin, candidates[..i], geocode, distance, maxDistance)
      invariant GeocodesEach(calls, candidates[..i])
    {
      var l := candidates[i];
      ghost var done := candidates[..i];
      assert candidates[..i + 1] == done + [l];
      KeptSnoc(origin, done, l, geocode, distance, maxDistance);
      calls := calls + [GeocodeCall(l.locationAddress)];
      match geocode(l.locationAddress) {
        case None =>
        case Some(c) =>
          var d := distance(origin, c);
          if WithinRange(d, maxDistance) {
            nearby := nearby + [Ranked(l, d, c.lat, c.lng)];
          }
      }
      i := i + 1;
    }
    assert candidates[..i] == candidates;
  }

  /** The 200 body: the kept catalog entries of the category, sorted by distance. */
  function NearbyResult(origin: Coord, catalog: seq<Location>, category: string,
                        geocode: string -> Option<Coord>, distance: (Coord, Coord) -> real,
                        maxDistance: Option<real>): seq<Ranked>
  {
    StableSort(Kept(origin, Find(CompiledFilter(CategoryOnly(category)), catalog), geocode, distance, maxDistance))
  }

  /**
   * The 200 body is sorted by distance, and every entry is a catalog location of the
   * requested category whose geocode succeeded and whose distance is within range.
   */
  lemma NearbyResultSound(origin: Coord, catalog: seq<Location>, category: string,
                          geocode: string -> Option<Coord>, distance: (Coord, Coord) -> real,
                          maxDistance: Option<real>)
    requires category != ""
    ensures Sorted(NearbyResult(origin, catalog, category, geocode, distance, maxDistance))
    ensures forall r :: r in NearbyResult(origin, catalog, category, geocode, distance, maxDistance) ==>
              r.location in catalog && r.location.placeCategory == Some(category) &&
              Accepted(r, origin, geocode, distance, maxDistance)
  {
    var candidates := Find(CompiledFilter(CategoryOnly(category)), catalog);
    var kept := Kept(origin, candidates, geocode, distance, maxDistance);
    StableSortSorted(kept);
    StableSortPermutes(kept);
    KeptSound(origin, candidates, geocode, distance, maxDistance);
    FindMeaning(CompiledFilter(CategoryOnly(category)), catalog);
    forall r | r in StableSort(kept)
      ensures r.location in catalog && r.location.placeCategory == Some(category)
      ensures Accepted(r, origin, geocode, distance, maxDistance)
    {
      assert r in multiset(StableSort(kept));
      assert r in kept;
      CompiledFilterMeaning(CategoryOnly(category), r.location);
    }
  }

  /**
   * The 200 body is a permutation of what the loop kept, and entries at the same distance
   * keep the catalog order.
   */
  lemma NearbyResultOrder(origin: Coord, catalog: seq<Location>, category: string,
                          geocode: string -> Option<Coord>, distance: (Coord, Coord) -> real,
                          maxDistance: Option<real>, d: real)
    ensures var kept := Kept(origin, Find(CompiledFilter(CategoryOnly(category)), catalog), geocode, distance, maxDistance);
            var result := NearbyResult(origin, catalog, category, geocode, distance, maxDistance);
            multiset(result) == multiset(kept) && AtDistance(result, d) == AtDistance(kept, d)
  {
    var kept := Kept(origin, Find(CompiledFilter(CategoryOnly(category)), catalog), geocode, distance, maxDistance);
    StableSortPermutes(kept);
    StableSortStable(kept, d);
  }

  /**
   * The 200 body misses nothing: every catalog location of the category that geocodes to a
   * point within range is in it.
   */
  lemma NearbyResultComplete(origin: Coord, catalog: seq<Location>, category: string,
                             geocode: string -> Option<Coord>, distance: (Coord, Coord) -> real,
                             maxDistance: Option<real>, l: Location)
    requires category != ""
    requires l in catalog && l.placeCategory == Some(category)
    requires geocode(l.locationAddress).Some?
    requires WithinRange(distance(origin, geocode(l.locationAddress).value), maxDistance)
    ensures var c := geocode(l.locationAddress).value;
            Ranked(l, distance(origin, c), c.lat, c.lng) in NearbyResult(origin, catalog, category, geocode, distance, maxDistance)
  {
    var candidates := Find(CompiledFilter(CategoryOnly(category)), catalog);
    var kept := Kept(origin, candidates, geocode, distance, maxDistance);
    CompiledFilterMeaning(CategoryOnly(category), l);
    FindMeaning(CompiledFilter(CategoryOnly(category)), catalog);
    assert l in candidates;
    var i :| 0 <= i < |candidates| && candidates[i] == l;
    KeptComplete(origin, candidates, geocode, distance, maxDistance, i);
    StableSortPermutes(kept);
    var c := geocode(l.locationAddress).value;
    assert Ranked(l, distance(origin, c), c.lat, c.lng) in multiset(StableSort(kept));
  }

  /**
   * `GET /filter-nearby`. A missing address or category is a 400 before any outbound call;
   * an origin that does not geocode is a 500 after that one call; otherwise the catalog is
   * queried once, every candidate is geocoded once in catalog order, and the answer is 200
   * with the kept candidates sorted by distance.
   */
  method FilterNearby(q: NearbyQuery, catalog: seq<Location>, geocode: string -> Option<Coord>,
                      distance: (Coord, Coord) -> real)
    returns (reply: Reply<seq<Ranked>>, calls: seq<Call>)
    ensures !Truthy(q.address) || !Truthy(q.placeCategory) ==>
              reply == Reply(BAD_REQUEST, None) && calls == []
    ensures Truthy(q.address) && Truthy(q.placeCategory) && geocode(q.address.value).None? ==>
              reply == Reply(SERVER_ERROR, None) && calls == [GeocodeCall(q.address.value)]
    ensures Truthy(q.address) && Truthy(q.placeCategory) && geocode(q.address.value).Some? ==>
              var origin := geocode(q.address.value).value;
              var f := CompiledFilter(CategoryOnly(q.placeCategory.value));
              reply == Reply(OK, Some(NearbyResult(origin, catalog, q.placeCategory.value, geocode, distance, q.maxDistance))) &&
              |calls| >= 2 && calls[..2] == [GeocodeCall(q.address.value), FindCall(f)] &&
              GeocodesEach(calls[2..], Find(f, catalog))
  {
    if !Truthy(q.address) {
      return Reply(BAD_REQUEST, None), [];
    }
    if !Truthy(q.placeCategory) {
      return Reply(BAD_REQUEST, None), [];
    }
    calls := [GeocodeCall(q.address.value)];
    var origin := geocode(q.address.value);
    if origin.None? {
      return Reply(SERVER_ERROR, None), calls;
    }
    var f := BuildCategoryFilter(CategoryOnly(q.placeCategory.value));
    calls := calls + [FindCall(f)];
    var locations := Find(f, catalog);
    var kept, geocodeCalls := CollectNearby(origin.value, locations, geocode, distance, q.maxDistance);
    calls := calls + geocodeCalls;
    var nearbyLocations := new Ranked[|kept|](k requires 0 <= k < |kept| => kept[k]);
    assert nearbyLocations[..] == kept;
    SortByDistance(nearbyLocations);
    reply := Reply(OK, Some(nearbyLocations[..]));
    assert calls[2..] == geocodeCalls;
  }
}
