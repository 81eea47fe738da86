/** The recommendation query of server/src/routes/demandRequests.js
    (`GET /demand-requests/:id/recommendations`): the resources of exactly
    the requested type that sit in an existing storage location, each
    labelled by how much of the request it covers, fanned out over the
    disaster's location rows, and ordered by label text, then distance
    (missing last), then quantity (largest first). The database function
    `geo_distance_km` is the parameter `geo`. */
module Recommendations {

  import opened Wrappers
  import Ordering
  import Resources
  import DemandRequests

  datatype Fulfillment = Ready | Partial | Unavailable

  /** The text the `CASE` yields, which is what the query sorts on. */
  function LabelText(f: Fulfillment): string {
    match f
    case Ready => "Ready"
    case Partial => "Partial"
    case Unavailable => "Unavailable"
  }

  /** The `CASE` of the select list: exactly one label applies. */
  function Classify(available: int, requested: int): (f: Fulfillment)
    ensures f == Ready <==> available >= requested
    ensures f == Partial <==> available < requested && available > 0
    ensures f == Unavailable <==> available < requested && available <= 0
  {
    if available >= requested then Ready
    else if available > 0 then Partial
    else Unavailable
  }

  /** The position of a label in ascending text order. */
  function LabelRank(f: Fulfillment): nat {
    match f
    case Partial => 0
    case Ready => 1
    case Unavailable => 2
  }

  /** `ORDER BY fulfillment_status` compares the label texts, which puts
      Partial before Ready before Unavailable. */
  lemma LabelTextOrder(f: Fulfillment, g: Fulfillment)
    ensures Ordering.TextLess(LabelText(f), LabelText(g)) <==> LabelRank(f) < LabelRank(g)
    ensures LabelText(f) == LabelText(g) <==> f == g
  {
    Ordering.TextLessIrreflexive(LabelText(f));
    Ordering.TextLessTrichotomy(LabelText(f), LabelText(g));
    assert LabelText(f)[0] == match f case Ready => 'R' case Partial => 'P' case Unavailable => 'U';
    assert LabelText(g)[0] == match g case Ready => 'R' case Partial => 'P' case Unavailable => 'U';
  }

  datatype Recommendation = Recommendation(
    id: int,
    resourceType: string,
    quantityAvailable: int,
    city: string,
    state: string,
    distanceKm: Option<real>,
    fulfillment: Fulfillment)

  /** A row of `disaster_locations`. */
  datatype DisasterLocation = DisasterLocation(disasterId: int, position: Resources.Coordinates)

  /** `geo_distance_km(from, to)`; `None` is a NULL result. */
  type GeoDistance = (Resources.Coordinates, Resources.Coordinates) -> Option<real>

  /** `COALESCE(distance, 0)`. */
  function Coalesce(d: Option<real>): real {
    if d.Some? then d.value else 0.0
  }

  /** The lateral subquery's source rows: the disaster's location rows, in
      scan order. */
  function LocationRows(geoRows: seq<DisasterLocation>, disasterId: int): (rows: seq<DisasterLocation>)
    ensures |rows| <= |geoRows|
    ensures forall g :: g in rows <==> g in geoRows && g.disasterId == disasterId
  {
    if geoRows == [] then []
    else
      var rest := LocationRows(geoRows[1..], disasterId);
      assert forall g :: g in geoRows <==> g == geoRows[0] || g in geoRows[1..];
      if geoRows[0].disasterId == disasterId then [geoRows[0]] + rest else rest
  }

  /** `JOIN resources r ON r.resource_type = dr.resource_type JOIN
      storage_locations sl ON sl.id = r.storage_location_id`: the exact
      type, and a storage location that exists. */
  predicate Eligible(request: DemandRequests.DemandRequest, r: Resources.Resource,
                     locations: map<int, Resources.StorageLocation>) {
    r.resourceType == request.resourceType && r.storageLocationId.Some? && r.storageLocationId.value in locations
  }

  /** The output row for `r` at the given distance. */
  function RowOf(request: DemandRequests.DemandRequest, r: Resources.Resource, site: Resources.StorageLocation,
                 distance: Option<real>): Recommendation {
    Recommendation(r.id, r.resourceType, r.quantityAvailable, site.city, site.state, distance,
                   Classify(r.quantityAvailable, request.quantityRequested))
  }

  /** `LEFT JOIN LATERAL (...) ON TRUE` for one eligible resource: one row
      per location row of the disaster, each with a non-null distance; one
      row with a NULL distance when the disaster has none. */
  function RowsFor(request: DemandRequests.DemandRequest, r: Resources.Resource, site: Resources.StorageLocation,
                   geoRows: seq<DisasterLocation>, geo: GeoDistance): (rows: seq<Recommendation>)
    ensures var locs := LocationRows(geoRows, request.disasterId);
            |rows| == if |locs| == 0 then 1 else |locs|
    ensures forall k :: 0 <= k < |rows| ==>
              && rows[k] == RowOf(request, r, site, rows[k].distanceKm)
              && (rows[k].distanceKm.None? <==> |LocationRows(geoRows, request.disasterId)| == 0)
  {
    var locs := LocationRows(geoRows, request.disasterId);
    if |locs| == 0 then [RowOf(request, r, site, None)] else RowsAt(request, r, site, locs, geo)
  }

  /** One row per location row, each at `COALESCE(geo_distance_km(...), 0)`. */
  function RowsAt(request: DemandRequests.DemandRequest, r: Resources.Resource, site: Resources.StorageLocation,
                  locs: seq<DisasterLocation>, geo: GeoDistance): (rows: seq<Recommendation>)
    ensures |rows| == |locs|
    ensures forall k :: 0 <= k < |rows| ==>
              rows[k] == RowOf(request, r, site, Some(Coalesce(geo(site.position, locs[k].position))))
  {
    if locs == [] then []
    else [RowOf(request, r, site, Some(Coalesce(geo(site.position, locs[0].position))))] + RowsAt(request, r, site, locs[1..], geo)
  }

  /** The joined rows, in the resources' scan order: each of the requested
      type, labelled by its own stock, with a distance exactly when the
      disaster has a location row. */
  function Candidates(request: DemandRequests.DemandRequest, resources: seq<Resources.Resource>,
                      locations: map<int, Resources.StorageLocation>, geoRows: seq<DisasterLocation>,
                      geo: GeoDistance): (rows: seq<Recommendation>)
    ensures forall row :: row in rows ==>
              && row.resourceType == request.resourceType
              && row.fulfillment == Classify(row.quantityAvailable, request.quantityRequested)
              && (row.distanceKm.None? <==> |LocationRows(geoRows, request.disasterId)| == 0)
  {
    if resources == [] then []
    else
      var r := resources[0];
      var rest := Candidates(request, resources[1..], locations, geoRows, geo);
      if Eligible(request, r, locations) then RowsFor(request, r, locations[r.storageLocationId.value], geoRows, geo) + rest
      else rest
  }

  /** `distance_km` ascending with NULLS LAST, for two different values. */
  predicate DistanceBefore(x: Option<real>, y: Option<real>) {
    x.Some? && (y.None? || x.value < y.value)
  }

  /** `ORDER BY fulfillment_status, distance_km NULLS LAST,
      quantity_available DESC`: `a` may come before `b`. Comparing the
      label texts is the same as comparing the labels by rank. */
  function RowBefore(a: Recommendation, b: Recommendation): (before: bool)
    ensures before <==> KeyBefore(a, b)
  {
    LabelTextOrder(a.fulfillment, b.fulfillment);
    var la := LabelText(a.fulfillment);
    var lb := LabelText(b.fulfillment);
    if la != lb then Ordering.TextLess(la, lb)
    else if a.distanceKm != b.distanceKm then DistanceBefore(a.distanceKm, b.distanceKm)
    else a.quantityAvailable >= b.quantityAvailable
  }

  /** The same order with the label compared by rank. */
  predicate KeyBefore(a: Recommendation, b: Recommendation) {
    if a.fulfillment != b.fulfillment then LabelRank(a.fulfillment) < LabelRank(b.fulfillment)
    else if a.distanceKm != b.distanceKm then DistanceBefore(a.distanceKm, b.distanceKm)
    else a.quantityAvailable >= b.quantityAvailable
  }

  lemma RowBeforeIsTotalPreorder()
    ensures Ordering.TotalPreorder(RowBefore)
  {
    forall a, b ensures RowBefore(a, b) || RowBefore(b, a) {
      assert KeyBefore(a, b) || KeyBefore(b, a);
    }
    forall a, b, c | RowBefore(a, b) && RowBefore(b, c) ensures RowBefore(a, c) {
      assert KeyBefore(a, b) && KeyBefore(b, c);
    }
  }

  /** `WHERE dr.id = $1`: an unknown request gives no rows, not an error;
      otherwise the joined rows reordered by the query's keys, nothing
      added or dropped. */
  function Rank(requestId: int, requests: map<int, DemandRequests.DemandRequest>, resources: seq<Resources.Resource>,
                locations: map<int, Resources.StorageLocation>, geoRows: seq<DisasterLocation>,
                geo: GeoDistance): (out: seq<Recommendation>)
    ensures requestId !in requests ==> out == []
    ensures Ordering.Sorted(out, RowBefore)
    ensures requestId in requests ==>
              multiset(out) == multiset(Candidates(requests[requestId], resources, locations, geoRows, geo))
  {
    if requestId !in requests then []
    else
      var rows := Candidates(requests[requestId], resources, locations, geoRows, geo);
      RowBeforeIsTotalPreorder();
      Ordering.SortBySorted(rows, RowBefore);
      Ordering.SortByPermutes(rows, RowBefore);
      Ordering.SortBy(rows, RowBefore)
  }

  /** What one candidate row says about the resource it comes from. */
  ghost predicate Describes(row: Recommendation, request: DemandRequests.DemandRequest, resources: seq<Resources.Resource>,
                            locations: map<int, Resources.StorageLocation>, geoRows: seq<DisasterLocation>) {
    exists r :: r in resources && Eligible(request, r, locations)
      && row.id == r.id && row.resourceType == request.resourceType
      && row.quantityAvailable == r.quantityAvailable
      && row.city == locations[r.storageLocationId.value].city
      && row.state == locations[r.storageLocationId.value].state
      && row.fulfillment == Classify(r.quantityAvailable, request.quantityRequested)
      && (row.distanceKm.None? <==> |LocationRows(geoRows, request.disasterId)| == 0)
  }

  /** Every joined row comes from an eligible resource and describes it. */
  lemma {:induction false} CandidatesSound(request: DemandRequests.DemandRequest, resources: seq<Resources.Resource>,
                                           locations: map<int, Resources.StorageLocation>,
                                           geoRows: seq<DisasterLocation>, geo: GeoDistance)
    ensures forall row :: row in Candidates(request, resources, locations, geoRows, geo) ==>
              Describes(row, request, resources, locations, geoRows)
  {
    if resources != [] {
      var r := resources[0];
      CandidatesSound(request, resources[1..], locations, geoRows, geo);
      var rest := Candidates(request, resources[1..], locations, geoRows, geo);
      forall row | row in rest ensures Describes(row, request, resources, locations, geoRows) {
        DescribesTail(row, request, resources, locations, geoRows);
      }
      if Eligible(request, r, locations) {
        var own := RowsFor(request, r, locations[r.storageLocationId.value], geoRows, geo);
        forall row | row in own ensures Describes(row, request, resources, locations, geoRows) {
          assert r in resources;
        }
      }
    }
  }

  /** A row that describes a resource of the scan's tail describes one of
      the whole scan. */
  lemma DescribesTail(row: Recommendation, request: DemandRequests.DemandRequest, resources: seq<Resources.Resource>,
                      locations: map<int, Resources.StorageLocation>, geoRows: seq<DisasterLocation>)
    requires resources != []
    requires Describes(row, request, resources[1..], locations, geoRows)
    ensures Describes(row, request, resources, locations, geoRows)
  {
    var s :| s in resources[1..] && Eligible(request, s, locations) && row.id == s.id
             && row.quantityAvailable == s.quantityAvailable
             && row.city == locations[s.storageLocationId.value].city
             && row.state == locations[s.storageLocationId.value].state
             && row.fulfillment == Classify(s.quantityAvailable, request.quantityRequested)
             && row.resourceType == request.resourceType
             && (row.distanceKm.None? <==> |LocationRows(geoRows, request.disasterId)| == 0);
    assert s in resources;
  }

  /** Every eligible resource has a joined row. */
  lemma {:induction false} CandidatesComplete(request: DemandRequests.DemandRequest, resources: seq<Resources.Resource>,
                                              locations: map<int, Resources.StorageLocation>,
                                              geoRows: seq<DisasterLocation>, geo: GeoDistance)
    ensures forall r :: r in resources && Eligible(request, r, locations) ==>
              exists row :: row in Candidates(request, resources, locations, geoRows, geo) && row.id == r.id
  {
    if resources != [] {
      var r := resources[0];
      CandidatesComplete(request, resources[1..], locations, geoRows, geo);
      var rest := Candidates(request, resources[1..], locations, geoRows, geo);
      var all := Candidates(request, resources, locations, geoRows, geo);
      if Eligible(request, r, locations) {
        var own := RowsFor(request, r, locations[r.storageLocationId.value], geoRows, geo);
        assert all == own + rest;
        assert own[0] in all && own[0].id == r.id;
      }
      forall s | s in resources && Eligible(request, s, locations)
        ensures exists row :: row in all && row.id == s.id
      {
        if s != r {
          assert s in resources[1..];
          var row :| row in rest && row.id == s.id;
          assert row in all;
        }
      }
    }
  }

  lemma CandidatesDescribe(request: DemandRequests.DemandRequest, resources: seq<Resources.Resource>,
                           locations: map<int, Resources.StorageLocation>,
                           geoRows: seq<DisasterLocation>, geo: GeoDistance)
    ensures forall row :: row in Candidates(request, resources, locations, geoRows, geo) ==>
              Describes(row, request, resources, locations, geoRows)
    ensures forall r :: r in resources && Eligible(request, r, locations) ==>
              exists row :: row in Candidates(request, resources, locations, geoRows, geo) && row.id == r.id
  {
    CandidatesSound(request, resources, locations, geoRows, geo);
    CandidatesComplete(request, resources, locations, geoRows, geo);
  }

  /** The result is ordered by the query's keys, holds a row for every
      eligible resource and nothing else, each labelled by its stock
      against the requested quantity, with a distance exactly when the
      disaster has a location row; an unknown request id gives nothing. */
  lemma RankSpec(requestId: int, requests: map<int, DemandRequests.DemandRequest>, resources: seq<Resources.Resource>,
                 locations: map<int, Resources.StorageLocation>, geoRows: seq<DisasterLocation>, geo: GeoDistance)
    ensures requestId !in requests ==> Rank(requestId, requests, resources, locations, geoRows, geo) == []
    ensures var out := Rank(requestId, requests, resources, locations, geoRows, geo);
            && Ordering.Sorted(out, RowBefore)
            && (requestId in requests ==>
                  && (forall row :: row in out ==> Describes(row, requests[requestId], resources, locations, geoRows))
                  && (forall r :: r in resources && Eligible(requests[requestId], r, locations) ==>
                        exists row :: row in out && row.id == r.id))
  {
    if requestId in requests {
      var request := requests[requestId];
      var rows := Candidates(request, resources, locations, geoRows, geo);
      RowBeforeIsTotalPreorder();
      Ordering.SortBySorted(rows, RowBefore);
      CandidatesDescribe(request, resources, locations, geoRows, geo);
      forall row ensures row in Ordering.SortBy(rows, RowBefore) <==> row in rows {
        Ordering.SortByMembers(rows, RowBefore, row);
      }
    }
  }

  /** Read pairwise, the order says: Partial rows come first, then Ready,
      then Unavailable; within a label, nearer rows first and rows without
      a distance last; at equal distance, larger stock first. */
  lemma RankOrder(requestId: int, requests: map<int, DemandRequests.DemandRequest>, resources: seq<Resources.Resource>,
                  locations: map<int, Resources.StorageLocation>, geoRows: seq<DisasterLocation>, geo: GeoDistance,
                  i: int, j: int)
    requires var out := Rank(requestId, requests, resources, locations, geoRows, geo); 0 <= i < j < |out|
    ensures var out := Rank(requestId, requests, resources, locations, geoRows, geo);
            var a := out[i];
            var b := out[j];
            && LabelRank(a.fulfillment) <= LabelRank(b.fulfillment)
            && (a.fulfillment == b.fulfillment && a.distanceKm.None? ==> b.distanceKm.None?)
            && (a.fulfillment == b.fulfillment && a.distanceKm.Some? && b.distanceKm.Some? ==>
                  a.distanceKm.value <= b.distanceKm.value)
            && (a.fulfillment == b.fulfillment && a.distanceKm == b.distanceKm ==>
                  a.quantityAvailable >= b.quantityAvailable)
  {
    var out := Rank(requestId, requests, resources, locations, geoRows, geo);
    RankSpec(requestId, requests, resources, locations, geoRows, geo);
    assert RowBefore(out[i], out[j]);
  }

  // ---- no location row, or one ----

  function EligibleResources(request: DemandRequests.DemandRequest, resources: seq<Resources.Resource>,
                             locations: map<int, Resources.StorageLocation>): (e: seq<Resources.Resource>)
    ensures forall r :: r in e <==> r in resources && Eligible(request, r, locations)
  {
    if resources == [] then []
    else
      var rest := EligibleResources(request, resources[1..], locations);
      assert forall r :: r in resources <==> r == resources[0] || r in resources[1..];
      if Eligible(request, resources[0], locations) then [resources[0]] + rest else rest
  }

  /** The single row of an eligible resource when the disaster has at most
      one location row. */
  function SingleRow(request: DemandRequests.DemandRequest, r: Resources.Resource,
                     locations: map<int, Resources.StorageLocation>, geoRows: seq<DisasterLocation>,
                     geo: GeoDistance): Recommendation
    requires Eligible(request, r, locations)
  {
    RowsFor(request, r, locations[r.storageLocationId.value], geoRows, geo)[0]
  }

  function SingleRows(request: DemandRequests.DemandRequest, e: seq<Resources.Resource>,
                      locations: map<int, Resources.StorageLocation>, geoRows: seq<DisasterLocation>,
                      geo: GeoDistance): (rows: seq<Recommendation>)
    requires forall r :: r in e ==> Eligible(request, r, locations)
    ensures |rows| == |e|
  {
    if e == [] then [] else [SingleRow(request, e[0], locations, geoRows, geo)] + SingleRows(request, e[1..], locations, geoRows, geo)
  }

  lemma {:induction false} CandidatesAreSingleRows(request: DemandRequests.DemandRequest, resources: seq<Resources.Resource>,
                                                   locations: map<int, Resources.StorageLocation>,
                                                   geoRows: seq<DisasterLocation>, geo: GeoDistance)
    requires |LocationRows(geoRows, request.disasterId)| <= 1
    ensures Candidates(request, resources, locations, geoRows, geo)
            == SingleRows(request, EligibleResources(request, resources, locations), locations, geoRows, geo)
  {
    if resources != [] {
      CandidatesAreSingleRows(request, resources[1..], locations, geoRows, geo);
      var r := resources[0];
      var rest := Candidates(request, resources[1..], locations, geoRows, geo);
      var e := EligibleResources(request, resources, locations);
      if Eligible(request, r, locations) {
        var rows := RowsFor(request, r, locations[r.storageLocationId.value], geoRows, geo);
        assert Candidates(request, resources, locations, geoRows, geo) == rows + rest;
        assert rows == [SingleRow(request, r, locations, geoRows, geo)];
        assert e[0] == r && e[1..] == EligibleResources(request, resources[1..], locations);
      } else {
        assert Candidates(request, resources, locations, geoRows, geo) == rest;
        assert e == EligibleResources(request, resources[1..], locations);
      }
    }
  }

  /** With at most one location row per disaster, the ranking is a
      reordering of one row per eligible resource: nothing is added,
      dropped or duplicated. */
  lemma RankPermutesEligible(requestId: int, requests: map<int, DemandRequests.DemandRequest>,
                             resources: seq<Resources.Resource>, locations: map<int, Resources.StorageLocation>,
                             geoRows: seq<DisasterLocation>, geo: GeoDistance)
    requires requestId in requests
    requires |LocationRows(geoRows, requests[requestId].disasterId)| <= 1
    ensures var e := EligibleResources(requests[requestId], resources, locations);
            var out := Rank(requestId, requests, resources, locations, geoRows, geo);
            && |out| == |e|
            && multiset(out) == multiset(SingleRows(requests[requestId], e, locations, geoRows, geo))
  {
    var request := requests[requestId];
    var rows := Candidates(request, resources, locations, geoRows, geo);
    CandidatesAreSingleRows(request, resources, locations, geoRows, geo);
    Ordering.SortByPermutes(rows, RowBefore);
    assert |Ordering.SortBy(rows, RowBefore)| == |multiset(Ordering.SortBy(rows, RowBefore))|;
  }

  // ---- a worked case ----

  /** A disaster with a single location row gives a resource one row. */
  lemma OneLocationRow(request: DemandRequests.DemandRequest, r: Resources.Resource, site: Resources.StorageLocation,
                       g: DisasterLocation, geo: GeoDistance)
    requires g.disasterId == request.disasterId
    ensures RowsFor(request, r, site, [g], geo) == [RowOf(request, r, site, Some(Coalesce(geo(site.position, g.position))))]
  {
    assert LocationRows([g], request.disasterId) == [g];
  }

  /** Fifty units of water are requested for a disaster with one location
      row; A holds 60 units 5 km away, B 20 units 2 km away, C none 1 km
      away. Sorting the label text puts the Partial row B first, then the
      Ready row A, then C. */
  lemma WaterExample()
    ensures var request := DemandRequests.DemandRequest(1, 7, "Relief desk", DemandRequests.High, None, "Water", 50,
                                                        DemandRequests.Pending, 0, 0);
            var site := (id: int, km: real) => Resources.StorageLocation(id, "Depot", "City", "State",
                                                                        Resources.Coordinates(Some(km), Some(0.0)));
            var locations := map[10 := site(10, 5.0), 20 := site(20, 2.0), 30 := site(30, 1.0)];
            var a := Resources.Resource(1, "Water", 60, Resources.Available, Some(10), 0);
            var b := Resources.Resource(2, "Water", 20, Resources.Available, Some(20), 0);
            var c := Resources.Resource(3, "Water", 0, Resources.Available, Some(30), 0);
            var geoRows := [DisasterLocation(7, Resources.Coordinates(Some(0.0), Some(0.0)))];
            var geo := (from: Resources.Coordinates, to: Resources.Coordinates) => from.latitude;
            var out := Rank(1, map[1 := request], [a, b, c], locations, geoRows, geo);
            && |out| == 3
            && out[0].id == 2 && out[0].fulfillment == Partial && out[0].distanceKm == Some(2.0)
            && out[1].id == 1 && out[1].fulfillment == Ready && out[1].distanceKm == Some(5.0)
            && out[2].id == 3 && out[2].fulfillment == Unavailable && out[2].distanceKm == Some(1.0)
  {
    var request := DemandRequests.DemandRequest(1, 7, "Relief desk", DemandRequests.High, None, "Water", 50,
                                                DemandRequests.Pending, 0, 0);
    var site := (id: int, km: real) => Resources.StorageLocation(id, "Depot", "City", "State",
                                                                Resources.Coordinates(Some(km), Some(0.0)));
    var locations := map[10 := site(10, 5.0), 20 := site(20, 2.0), 30 := site(30, 1.0)];
    var a := Resources.Resource(1, "Water", 60, Resources.Available, Some(10), 0);
    var b := Resources.Resource(2, "Water", 20, Resources.Available, Some(20), 0);
    var c := Resources.Resource(3, "Water", 0, Resources.Available, Some(30), 0);
    var geoRows := [DisasterLocation(7, Resources.Coordinates(Some(0.0), Some(0.0)))];
    var geo := (from: Resources.Coordinates, to: Resources.Coordinates) => from.latitude;
    var ra := RowOf(request, a, locations[10], Some(5.0));
    var rb := RowOf(request, b, locations[20], Some(2.0));
    var rc := RowOf(request, c, locations[30], Some(1.0));
    OneLocationRow(request, c, locations[30], geoRows[0], geo);
    OneLocationRow(request, b, locations[20], geoRows[0], geo);
    OneLocationRow(request, a, locations[10], geoRows[0], geo);
    assert [a, b, c][1..] == [b, c] && [b, c][1..] == [c];
    assert [c][1..] == [];
    assert Candidates(request, [c], locations, geoRows, geo) == [rc];
    assert Candidates(request, [b, c], locations, geoRows, geo) == [rb, rc];
    assert Candidates(request, [a, b, c], locations, geoRows, geo) == [ra, rb, rc];
    assert RowBefore(rb, rc) && RowBefore(ra, rc) && !RowBefore(ra, rb);
    SortThree(ra, rb, rc);
  }

  /** Sorting three rows where the second goes before the first and both
      before the third. */
  lemma SortThree(ra: Recommendation, rb: Recommendation, rc: Recommendation)
    requires RowBefore(rb, rc) && RowBefore(ra, rc) && !RowBefore(ra, rb)
    ensures Ordering.SortBy([ra, rb, rc], RowBefore) == [rb, ra, rc]
  {
    assert [ra, rb, rc][1..] == [rb, rc] && [rb, rc][1..] == [rc] && [rc][1..] == [];
    assert Ordering.SortBy([rc], RowBefore) == [rc];
    assert Ordering.SortBy([rb, rc], RowBefore) == [rb, rc];
    assert Ordering.Insert(ra, [rc], RowBefore) == [ra, rc];
  }
}
