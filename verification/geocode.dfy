/** The geocoding loop of the locations endpoint: one outbound lookup per
    place, and the rule that decides whether a lookup contributes a point.
    The lookup itself (request, network, decoding) is a parameter. */
module Geocode {
  import opened Types

  /** A decoded JSON value, as far as the handler looks at it. */
  datatype Json = JString(text: string) | JNumber(literal: string) | JOther

  /** One candidate object of the geocoder's answer. */
  type Candidate = map<string, Json>

  /** What one outbound lookup produced. */
  datatype Lookup =
    | RequestError                       // the request could not be built
    | TransportError                     // the call failed or timed out
    | DecodeError                        // the body is not a JSON array of objects
    | Candidates(body: seq<Candidate>)   // the decoded candidate list

  /** One entry of the endpoint's answer. Latitude and longitude are kept as
      the strings the geocoder sent. */
  datatype GeoPoint = GeoPoint(location: string, lat: string, lon: string)

  /** `c[key].(string)`: the field when it is present and a JSON string. */
  function StringField(c: Candidate, key: string): Option<string> {
    if key in c && c[key].JString? then Some(c[key].text) else None
  }

  /** The coordinates a lookup contributes: those of the first candidate,
      when both its "lat" and "lon" are strings. */
  function Coordinates(l: Lookup): (r: Option<(string, string)>)
    ensures forall lat, lon :: r == Some((lat, lon)) <==>
      && l.Candidates? && |l.body| > 0
      && "lat" in l.body[0] && l.body[0]["lat"] == JString(lat)
      && "lon" in l.body[0] && l.body[0]["lon"] == JString(lon)
  {
    match l
    case Candidates(body) =>
      if |body| == 0 then None
      else (
        match (StringField(body[0], "lat"), StringField(body[0], "lon"))
        case (Some(lat), Some(lon)) => Some((lat, lon))
        case _ => None)
    case _ => None
  }

  /** A place contributes nothing when the lookup failed, when no candidate
      came back, or when a coordinate of the first candidate is missing or is
      not a JSON string (a number, a boolean, null, an object). */
  lemma SkippedLookups(l: Lookup)
    ensures !l.Candidates? ==> Coordinates(l).None?
    ensures l.Candidates? && l.body == [] ==> Coordinates(l).None?
    ensures l.Candidates? && |l.body| > 0
      && (!("lat" in l.body[0] && l.body[0]["lat"].JString?) || !("lon" in l.body[0] && l.body[0]["lon"].JString?))
      ==> Coordinates(l).None?
  {
  }

  predicate Distinct(xs: seq<string>) {
    forall i, j :: 0 <= i < j < |xs| ==> xs[i] != xs[j]
  }

  function Locations(results: seq<GeoPoint>): seq<string> {
    seq(|results|, i requires 0 <= i < |results| => results[i].location)
  }

  /** What the geocoding loop promises about its answer for `places`: each
      point is named after a place and carries that place's coordinates, no
      place appears twice, and every place with coordinates appears. */
  predicate IsGeocodeOf(places: set<string>, lookup: string -> Lookup, results: seq<GeoPoint>) {
    && (forall i :: 0 <= i < |results| ==>
          results[i].location in places
          && Coordinates(lookup(results[i].location)) == Some((results[i].lat, results[i].lon)))
    && Distinct(Locations(results))
    && (forall p :: p in places && Coordinates(lookup(p)).Some? ==>
          exists i :: 0 <= i < |results| && results[i].location == p)
  }

  /** The loop over `uniq`: the places are visited in an order the model
      leaves open, each is looked up exactly once, and the fixed pause follows
      each place that contributed a point (a skipped place moves on at once).
      `requested` records the lookup attempts in order (a request that
      cannot be built never leaves the process); `pauses` counts the
      pauses. */
  method GeocodePlaces(places: set<string>, lookup: string -> Lookup)
    returns (results: seq<GeoPoint>, requested: seq<string>, pauses: nat)
    ensures IsGeocodeOf(places, lookup, results)
    ensures Distinct(requested) && |requested| == |places|
    ensures forall p :: p in requested <==> p in places
    ensures |results| <= |places|
    ensures pauses == |results|
  {
    results, requested, pauses := [], [], 0;
    var remaining := places;
    while remaining != {}
      invariant remaining <= places
      invariant forall p :: p in requested <==> p in places && p !in remaining
      invariant Distinct(requested)
      invariant |requested| + |remaining| == |places|
      invariant |results| <= |requested|
      invariant forall i :: 0 <= i < |results| ==>
        results[i].location in requested
        && Coordinates(lookup(results[i].location)) == Some((results[i].lat, results[i].lon))
      invariant Distinct(Locations(results))
      invariant forall p :: p in requested && Coordinates(lookup(p)).Some? ==>
        exists i :: 0 <= i < |results| && results[i].location == p
      invariant pauses == |results|
      decreases remaining
    {
      var loc :| loc in remaining;
      assert loc !in Locations(results);
      remaining := remaining - {loc};
      requested := requested + [loc];
      var answer := lookup(loc);
      if !answer.Candidates? {
        continue;
      }
      if |answer.body| == 0 {
        continue;
      }
      var lat := StringField(answer.body[0], "lat");
      var lon := StringField(answer.body[0], "lon");
      if lat.None? || lon.None? {
        continue;
      }
      var point := GeoPoint(loc, lat.value, lon.value);
      assert Coordinates(lookup(loc)) == Some((point.lat, point.lon));
      assert Locations(results + [point]) == Locations(results) + [loc];
      ghost var before := results;
      results := results + [point];
      assert results[|results| - 1].location == loc;
      assert forall i :: 0 <= i < |before| ==> results[i] == before[i];
      pauses := pauses + 1;
    }
  }

  /** The points a set of places must produce, as a set. */
  function ExpectedPoints(places: set<string>, lookup: string -> Lookup): set<GeoPoint> {
    set p | p in places && Coordinates(lookup(p)).Some? ::
      GeoPoint(p, Coordinates(lookup(p)).value.0, Coordinates(lookup(p)).value.1)
  }

  /** The answer is determined up to order: its points are exactly the
      expected ones, each once. */
  lemma GeocodeIsDeterminedUpToOrder(places: set<string>, lookup: string -> Lookup, results: seq<GeoPoint>)
    requires IsGeocodeOf(places, lookup, results)
    ensures PointSet(results) == ExpectedPoints(places, lookup)
    ensures |results| == |ExpectedPoints(places, lookup)|
  {
    forall g | g in ExpectedPoints(places, lookup) ensures g in PointSet(results) {
      var i :| 0 <= i < |results| && results[i].location == g.location;
      assert Coordinates(lookup(g.location)) == Some((g.lat, g.lon));
      assert results[i] == g;
    }
    DistinctPointsCount(results);
  }

  /** The set of points of a list. */
  function PointSet(results: seq<GeoPoint>): set<GeoPoint> {
    set i | 0 <= i < |results| :: results[i]
  }

  /** A list of points with distinct locations has as many elements as its
      set of points. */
  lemma {:induction false} DistinctPointsCount(results: seq<GeoPoint>)
    requires Distinct(Locations(results))
    ensures |PointSet(results)| == |results|
  {
    if results != [] {
      var init := results[..|results| - 1];
      var last := results[|results| - 1];
      assert Distinct(Locations(init)) by {
        forall i, j | 0 <= i < j < |init| ensures init[i].location != init[j].location {
          assert Locations(results)[i] != Locations(results)[j];
        }
      }
      DistinctPointsCount(init);
      PointSetSnoc(init, last);
      assert results == init + [last];
      assert last !in PointSet(init) by {
        forall i | 0 <= i < |init| ensures init[i] != last {
          assert Locations(results)[i] != Locations(results)[|results| - 1];
        }
      }
    }
  }

  lemma PointSetSnoc(init: seq<GeoPoint>, last: GeoPoint)
    ensures PointSet(init + [last]) == PointSet(init) + {last}
  {
    var rs := init + [last];
    forall g | g in PointSet(init) ensures g in PointSet(rs) {
      var i :| 0 <= i < |init| && init[i] == g;
      assert rs[i] == g;
    }
    assert rs[|init|] == last;
  }

  /** Three places, one of which the geocoder cannot resolve: "paris" and
      "london" resolve, "Berlin" finds no candidate; the answer holds the two
      resolved points and nothing else. */
  lemma BerlinIsSkipped(results: seq<GeoPoint>)
    requires IsGeocodeOf({"paris", "london", "Berlin"}, ExampleLookup, results)
    ensures PointSet(results) == {GeoPoint("paris", "48.85", "2.35"), GeoPoint("london", "51.5", "-0.12")}
    ensures |results| == 2
  {
    var places := {"paris", "london", "Berlin"};
    GeocodeIsDeterminedUpToOrder(places, ExampleLookup, results);
    var e := ExpectedPoints(places, ExampleLookup);
    assert Coordinates(ExampleLookup("paris")) == Some(("48.85", "2.35"));
    assert Coordinates(ExampleLookup("london")) == Some(("51.5", "-0.12"));
    assert Coordinates(ExampleLookup("Berlin")) == None;
    assert GeoPoint("paris", "48.85", "2.35") in e;
    assert GeoPoint("london", "51.5", "-0.12") in e;
    assert e == {GeoPoint("paris", "48.85", "2.35"), GeoPoint("london", "51.5", "-0.12")};
  }

  /** A stub geocoder for the worked case. */
  function ExampleLookup(place: string): Lookup {
    if place == "paris" then Candidates([map["lat" := JString("48.85"), "lon" := JString("2.35")]])
    else if place == "london" then Candidates([map["lat" := JString("51.5"), "lon" := JString("-0.12")]])
    else Candidates([])
  }
}
