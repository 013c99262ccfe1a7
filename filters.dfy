/** The two derived result lists of the food-truck page: the name-or-address
    text filter and the nearest-five geolocation filter. Both are pure
    filter/map/sort/slice pipelines over the fetched records. */
module Filters {
  import opened Seqs
  import opened Ascii
  import opened Schema
  import opened Ranking

  /** The geolocation list is cut to this many entries. */
  const NearestCount: nat := 5

  /** The great-circle distance `haversine(lat1, lon1, lat2, lon2)`; it is
      floating-point code outside this model, so it is a parameter. */
  type Distance = (real, real, real, real) -> real

  // ---------------------------------------------------------------------
  // Text filter

  /** The lower-cased query occurs in the lower-cased applicant or, failing
      that (including a missing applicant), in the lower-cased address. */
  predicate MatchesQuery(t: FoodTruck, query: string): (b: bool)
    ensures b <==> (t.applicant.Some? && ContainsIgnoringCase(t.applicant.value, query))
                   || ContainsIgnoringCase(t.address, query)
  {
    IncludesLowerIff(t.address, query);
    if t.applicant.Some? then
      IncludesLowerIff(t.applicant.value, query);
      Includes(ToLower(t.applicant.value), ToLower(query)) || Includes(ToLower(t.address), ToLower(query))
    else
      Includes(ToLower(t.address), ToLower(query))
  }

  /** An empty status filter admits every record; otherwise the canonical
      status must be one of its entries. */
  predicate MatchesStatus(t: FoodTruck, statusFilter: seq<string>): (b: bool)
    ensures statusFilter == [] ==> b
    ensures statusFilter != [] ==> (b <==> exists i :: 0 <= i < |statusFilter| && statusFilter[i] == CanonicalStatus(t))
    ensures t.status.None? && statusFilter != [] && "" !in statusFilter ==> !b
  {
    |statusFilter| == 0 || CanonicalStatus(t) in statusFilter
  }

  predicate MatchesText(t: FoodTruck, query: string, statusFilter: seq<string>)
  {
    MatchesQuery(t, query) && MatchesStatus(t, statusFilter)
  }

  /** `fetchedFoodTrucks.filter(...)` with both predicates. */
  function KeepMatchingText(trucks: seq<FoodTruck>, query: string, statusFilter: seq<string>): (r: seq<FoodTruck>)
    ensures IsSubsequence(r, trucks)
    ensures forall t :: multiset(r)[t] == if MatchesText(t, query, statusFilter) then multiset(trucks)[t] else 0
  {
    if trucks == [] then []
    else
      var rest := KeepMatchingText(trucks[1..], query, statusFilter);
      assert trucks == [trucks[0]] + trucks[1..];
      if MatchesText(trucks[0], query, statusFilter) then
        assert ([trucks[0]] + rest)[1..] == rest;
        [trucks[0]] + rest
      else
        SubsequenceOfPrefix(rest, trucks[1..], trucks[0]);
        rest
  }

  /** With an empty query and no status filter every record matches, so the
      filtering path would also return the whole list. */
  lemma {:induction false} KeepMatchingTextUnfiltered(trucks: seq<FoodTruck>)
    ensures KeepMatchingText(trucks, "", []) == trucks
  {
    if trucks != [] {
      assert ToLower("") == "";
      assert MatchesText(trucks[0], "", []);
      KeepMatchingTextUnfiltered(trucks[1..]);
    }
  }

  /** The name-or-address list: the fetched list itself when the query and
      the status filter are both empty, the filtered list otherwise. Either
      way it is the order-preserving selection of the matching records. */
  function FilterByNameOrAddress(trucks: seq<FoodTruck>, query: string, statusFilter: seq<string>): (r: seq<FoodTruck>)
    ensures query == "" && statusFilter == [] ==> r == trucks
    ensures IsSubsequence(r, trucks)
    ensures forall t :: multiset(r)[t] == if MatchesText(t, query, statusFilter) then multiset(trucks)[t] else 0
    ensures forall t :: t in r <==> t in trucks && MatchesText(t, query, statusFilter)
  {
    if query == "" && statusFilter == [] then
      KeepMatchingTextUnfiltered(trucks);
      trucks
    else
      KeepMatchingText(trucks, query, statusFilter)
  }

  /** Every record of the text list contains the query, ignoring ASCII case,
      in its applicant or its address, and passes the status filter. */
  lemma TextResultMatches(trucks: seq<FoodTruck>, query: string, statusFilter: seq<string>, t: FoodTruck)
    requires t in FilterByNameOrAddress(trucks, query, statusFilter)
    ensures t in trucks
    ensures (t.applicant.Some? && ContainsIgnoringCase(t.applicant.value, query))
            || ContainsIgnoringCase(t.address, query)
    ensures |statusFilter| > 0 ==> CanonicalStatus(t) in statusFilter
  {
    assert MatchesText(t, query, statusFilter);
  }

  // ---------------------------------------------------------------------
  // Geolocation filter

  predicate Locatable(t: FoodTruck)
  {
    t.latitude.Some? && t.longitude.Some?
  }

  predicate GeoEligible(t: FoodTruck, statusFilter: seq<string>)
  {
    Locatable(t) && MatchesStatus(t, statusFilter)
  }

  /** The `.filter(...)` step: records with both coordinates that pass the
      status filter. */
  function KeepGeoEligible(trucks: seq<FoodTruck>, statusFilter: seq<string>): (r: seq<FoodTruck>)
    ensures IsSubsequence(r, trucks)
    ensures forall t :: multiset(r)[t] == if GeoEligible(t, statusFilter) then multiset(trucks)[t] else 0
  {
    if trucks == [] then []
    else
      var rest := KeepGeoEligible(trucks[1..], statusFilter);
      assert trucks == [trucks[0]] + trucks[1..];
      if GeoEligible(trucks[0], statusFilter) then
        assert ([trucks[0]] + rest)[1..] == rest;
        [trucks[0]] + rest
      else
        SubsequenceOfPrefix(rest, trucks[1..], trucks[0]);
        rest
  }

  /** The `.map(...)` step for one record. */
  function RankedFrom(t: FoodTruck, lat: real, lon: real, dist: Distance): (r: Ranked<FoodTruck>)
    requires Locatable(t)
    ensures r.truck == t
    ensures r.distance == dist(lat, lon, t.latitude.value, t.longitude.value)
  {
    Ranked(t, dist(lat, lon, t.latitude.value, t.longitude.value))
  }

  function AttachDistance(trucks: seq<FoodTruck>, lat: real, lon: real, dist: Distance): (r: seq<Ranked<FoodTruck>>)
    requires forall t :: t in trucks ==> Locatable(t)
    ensures |r| == |trucks|
    ensures forall i :: 0 <= i < |r| ==>
              Locatable(trucks[i]) && r[i].truck == trucks[i] &&
              r[i].distance == dist(lat, lon, trucks[i].latitude.value, trucks[i].longitude.value)
  {
    seq(|trucks|, i requires 0 <= i < |trucks| => RankedFrom(trucks[i], lat, lon, dist))
  }

  /** All eligible records, ranked and sorted; the list is its first five. */
  function GeoCandidates(trucks: seq<FoodTruck>, lat: real, lon: real, statusFilter: seq<string>, dist: Distance): (r: seq<Ranked<FoodTruck>>)
    ensures SortedByDistance(r)
    ensures |r| == |KeepGeoEligible(trucks, statusFilter)|
    ensures var eligible := KeepGeoEligible(trucks, statusFilter);
            && (forall t :: t in eligible ==> Locatable(t))
            && multiset(r) == multiset(AttachDistance(eligible, lat, lon, dist))
            && forall d :: AtDistance(r, d) == AtDistance(AttachDistance(eligible, lat, lon, dist), d)
  {
    var eligible := KeepGeoEligible(trucks, statusFilter);
    assert forall t :: t in eligible ==> GeoEligible(t, statusFilter) by {
      assert forall t :: t in eligible ==> multiset(eligible)[t] > 0;
    }
    var ranked := AttachDistance(eligible, lat, lon, dist);
    var r := SortByDistance(ranked);
    assert |r| == |multiset(r)| == |multiset(ranked)| == |ranked|;
    SortByDistanceStableAll(ranked);
    r
  }

  function Min(a: int, b: int): (m: int)
    ensures m <= a && m <= b && (m == a || m == b)
  {
    if a <= b then a else b
  }

  /** The geolocation list: empty unless the query holds exactly one
      latitude and one longitude; otherwise the first five of the sorted
      candidates. */
  function FilterByGeolocation(trucks: seq<FoodTruck>, query: seq<real>, statusFilter: seq<string>, dist: Distance): (r: seq<Ranked<FoodTruck>>)
    ensures |r| <= NearestCount
    ensures |query| != 2 ==> r == []
    ensures SortedByDistance(r)
    ensures |query| == 2 ==> forall e :: e in r ==>
              e.truck in trucks && GeoEligible(e.truck, statusFilter) &&
              e == RankedFrom(e.truck, query[0], query[1], dist)
    ensures |query| == 2 ==>
              var c := GeoCandidates(trucks, query[0], query[1], statusFilter, dist);
              r == c[..Min(NearestCount, |c|)]
  {
    if |query| != 2 then []
    else
      var c := GeoCandidates(trucks, query[0], query[1], statusFilter, dist);
      var r := c[..Min(NearestCount, |c|)];
      GeoCandidateFacts(trucks, query[0], query[1], statusFilter, dist);
      assert forall e :: e in r ==> e in c;
      r
  }

  lemma GeoCandidateFacts(trucks: seq<FoodTruck>, lat: real, lon: real, statusFilter: seq<string>, dist: Distance)
    ensures var c := GeoCandidates(trucks, lat, lon, statusFilter, dist);
            forall e :: e in c ==> e.truck in trucks && GeoEligible(e.truck, statusFilter) &&
                                   e == RankedFrom(e.truck, lat, lon, dist)
  {
    var eligible := KeepGeoEligible(trucks, statusFilter);
    assert forall t :: t in eligible ==> multiset(eligible)[t] > 0;
    var ranked := AttachDistance(eligible, lat, lon, dist);
    var c := GeoCandidates(trucks, lat, lon, statusFilter, dist);
    forall e | e in c
      ensures e.truck in trucks && GeoEligible(e.truck, statusFilter) && e == RankedFrom(e.truck, lat, lon, dist)
    {
      assert e in multiset(c);
      assert e in ranked;
      var i :| 0 <= i < |ranked| && ranked[i] == e;
      assert eligible[i] in eligible;
    }
  }

  /** The list keeps the nearest eligible records: it has five entries, or
      all of them when fewer are eligible, and every eligible record left out
      is at least as far away as every record kept. */
  lemma GeoResultIsNearest(trucks: seq<FoodTruck>, query: seq<real>, statusFilter: seq<string>, dist: Distance)
    requires |query| == 2
    ensures var r := FilterByGeolocation(trucks, query, statusFilter, dist);
            |r| == Min(NearestCount, |KeepGeoEligible(trucks, statusFilter)|) &&
            forall t :: t in trucks && GeoEligible(t, statusFilter) ==>
              var e := RankedFrom(t, query[0], query[1], dist);
              e in r || forall i :: 0 <= i < |r| ==> r[i].distance <= e.distance
  {
    var lat, lon := query[0], query[1];
    var c := GeoCandidates(trucks, lat, lon, statusFilter, dist);
    var n := Min(NearestCount, |c|);
    assert FilterByGeolocation(trucks, query, statusFilter, dist) == c[..n];
    forall t | t in trucks && GeoEligible(t, statusFilter)
      ensures var e := RankedFrom(t, lat, lon, dist);
              e in c[..n] || forall i :: 0 <= i < n ==> c[..n][i].distance <= e.distance
    {
      EligibleIsCandidate(trucks, lat, lon, statusFilter, dist, t);
      NearestPrefix(c, n, RankedFrom(t, lat, lon, dist));
    }
  }

  /** Every eligible record is among the candidates, with its distance. */
  lemma EligibleIsCandidate(trucks: seq<FoodTruck>, lat: real, lon: real, statusFilter: seq<string>, dist: Distance, t: FoodTruck)
    requires t in trucks && GeoEligible(t, statusFilter)
    ensures RankedFrom(t, lat, lon, dist) in GeoCandidates(trucks, lat, lon, statusFilter, dist)
  {
    var eligible := KeepGeoEligible(trucks, statusFilter);
    assert forall t :: t in eligible ==> multiset(eligible)[t] > 0;
    var ranked := AttachDistance(eligible, lat, lon, dist);
    assert multiset(eligible)[t] > 0;
    var k :| 0 <= k < |eligible| && eligible[k] == t;
    assert ranked[k] == RankedFrom(t, lat, lon, dist);
    assert RankedFrom(t, lat, lon, dist) in multiset(ranked);
  }

  /** Ties keep their input order: for every distance, the entries of the
      list at that distance are the first eligible records at that distance,
      in the order of the fetched list. */
  lemma GeoResultStable(trucks: seq<FoodTruck>, query: seq<real>, statusFilter: seq<string>, dist: Distance, d: real)
    requires |query| == 2
    ensures var eligible := KeepGeoEligible(trucks, statusFilter);
            (forall t :: t in eligible ==> Locatable(t)) &&
            AtDistance(FilterByGeolocation(trucks, query, statusFilter, dist), d)
              <= AtDistance(AttachDistance(eligible, query[0], query[1], dist), d)
  {
    var eligible := KeepGeoEligible(trucks, statusFilter);
    assert forall t :: t in eligible ==> multiset(eligible)[t] > 0;
    var ranked := AttachDistance(eligible, query[0], query[1], dist);
    var c := GeoCandidates(trucks, query[0], query[1], statusFilter, dist);
    AtDistancePrefix(c, Min(NearestCount, |c|), d);
  }
}
