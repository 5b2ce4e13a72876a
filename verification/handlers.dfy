/** The request-level logic of the handlers: how an `id` query parameter
    selects an artist, and the locations endpoint end to end (classification,
    place extraction, geocoding). Routing, templates and JSON encoding are not
    part of this model. */
module Handlers {
  import opened Types
  import opened Decimal
  import opened Places
  import opened Geocode

  /** The position of the first artist satisfying `p`, scanning in order. */
  function FirstWhere(artists: seq<ArtistFull>, p: ArtistFull -> bool): (r: Option<nat>)
    ensures r.Some? ==> r.value < |artists| && p(artists[r.value])
    ensures r.Some? ==> forall k :: 0 <= k < r.value ==> !p(artists[k])
    ensures r.None? ==> forall k :: 0 <= k < |artists| ==> !p(artists[k])
  {
    if artists == [] then None
    else if p(artists[0]) then Some(0)
    else
      match FirstWhere(artists[1..], p)
      case None => None
      case Some(i) => Some(i + 1)
  }

  /** Some artist carries identifier `id`. */
  predicate HasArtist(artists: seq<ArtistFull>, id: int) {
    exists k :: 0 <= k < |artists| && artists[k].artist.id == id
  }

  /** How the locations endpoint reads its `id` parameter. */
  datatype LocationsRequest =
    | MissingId           // 400 "missing id"
    | InvalidId           // 400 "invalid id"
    | UnknownArtist       // 404
    | Selected(index: nat)

  /** Empty parameter, then `strconv.Atoi`, then a scan for the first artist
      with that identifier. */
  function ClassifyLocationsRequest(idStr: string, artists: seq<ArtistFull>): (r: LocationsRequest)
    ensures r == MissingId <==> idStr == ""
    ensures r == InvalidId <==> idStr != "" && Atoi(idStr).None?
    ensures r == UnknownArtist <==>
      idStr != "" && Atoi(idStr).Some? && !HasArtist(artists, Atoi(idStr).value)
    ensures r.Selected? ==> && Atoi(idStr).Some?
                            && r.index < |artists|
                            && artists[r.index].artist.id == Atoi(idStr).value
                            && forall k :: 0 <= k < r.index ==> artists[k].artist.id != Atoi(idStr).value
  {
    if idStr == "" then MissingId
    else
      match Atoi(idStr)
      case None => InvalidId
      case Some(id) =>
        match FirstWhere(artists, (a: ArtistFull) => a.artist.id == id)
        case None => UnknownArtist
        case Some(i) => Selected(i)
  }

  /** The artist and artist-map pages: an empty parameter is not found;
      otherwise the first artist whose rendered identifier equals the
      parameter string exactly. */
  function ArtistPageLookup(idStr: string, artists: seq<ArtistFull>): (r: Option<nat>)
    ensures r.Some? ==> && r.value < |artists|
                        && Itoa(artists[r.value].artist.id) == idStr
                        && forall k :: 0 <= k < r.value ==> Itoa(artists[k].artist.id) != idStr
    ensures r.None? ==> forall k :: 0 <= k < |artists| ==> Itoa(artists[k].artist.id) != idStr
  {
    if idStr == "" then None
    else FirstWhere(artists, (a: ArtistFull) => idStr == Itoa(a.artist.id))
  }

  /** A page is found exactly when the parameter is the canonical decimal
      form of some artist's identifier. */
  lemma PageFoundIffCanonical(idStr: string, artists: seq<ArtistFull>)
    ensures ArtistPageLookup(idStr, artists).Some? <==>
      IsCanonical(idStr) && IsSignedDecimal(idStr) && HasArtist(artists, SignedValue(idStr))
  {
    if ArtistPageLookup(idStr, artists).Some? {
      var i := ArtistPageLookup(idStr, artists).value;
      ItoaIffCanonical(idStr, artists[i].artist.id);
    }
    if IsCanonical(idStr) && IsSignedDecimal(idStr) && HasArtist(artists, SignedValue(idStr)) {
      var k :| 0 <= k < |artists| && artists[k].artist.id == SignedValue(idStr);
      ItoaIffCanonical(idStr, artists[k].artist.id);
    }
  }

  /** Whenever a page finds an artist, the locations endpoint given the same
      parameter selects the same artist. */
  lemma PageAgreesWithLocations(idStr: string, artists: seq<ArtistFull>)
    requires ArtistPageLookup(idStr, artists).Some?
    ensures ClassifyLocationsRequest(idStr, artists) == Selected(ArtistPageLookup(idStr, artists).value)
  {
    var i := ArtistPageLookup(idStr, artists).value;
    var id := artists[i].artist.id;
    AtoiItoaRoundTrip(id);
    assert HasArtist(artists, id);
  }

  /** The two lookups part ways on non-canonical numbers: with artist 7 in
      front, the decoded `id` values "07" and "+7" reach it through the
      locations endpoint but find no page. */
  lemma LeadingZeroFindsNoPage(artists: seq<ArtistFull>)
    requires |artists| > 0 && artists[0].artist.id == 7
    ensures ArtistPageLookup("07", artists).None?
    ensures ClassifyLocationsRequest("07", artists) == Selected(0)
    ensures ArtistPageLookup("+7", artists).None?
    ensures ClassifyLocationsRequest("+7", artists) == Selected(0)
  {
    AtoiAcceptsNonCanonical();
    PageFoundIffCanonical("07", artists);
    PageFoundIffCanonical("+7", artists);
  }

  /** The reply of the locations endpoint. */
  datatype LocationsReply =
    | BadRequest(message: string)
    | NotFound
    | Points(points: seq<GeoPoint>)

  function StatusCode(reply: LocationsReply): nat {
    match reply
    case BadRequest(_) => 400
    case NotFound => 404
    case Points(_) => 200
  }

  /** `apiArtistLocationsHandler` with the geocoder as a parameter. Rejected
      requests make no outbound lookup; an accepted one looks up each place
      of the selected artist once and answers with the points found. */
  method ApiArtistLocations(idStr: string, artists: seq<ArtistFull>, lookup: string -> Lookup)
    returns (reply: LocationsReply, requested: seq<string>)
    ensures idStr == "" ==> reply == BadRequest("missing id")
    ensures idStr != "" && Atoi(idStr).None? ==> reply == BadRequest("invalid id")
    ensures idStr != "" && Atoi(idStr).Some? && !HasArtist(artists, Atoi(idStr).value) ==>
      reply == NotFound
    ensures StatusCode(reply) != 200 ==> requested == []
    ensures forall i: nat :: ClassifyLocationsRequest(idStr, artists) == Selected(i) ==>
      && i < |artists|
      && reply.Points?
      && IsGeocodeOf(PlaceSet(artists[i]), lookup, reply.points)
      && |reply.points| <= |PlaceSet(artists[i])|
      && |requested| == |PlaceSet(artists[i])|
      && (forall p :: p in requested <==> p in PlaceSet(artists[i]))
  {
    match ClassifyLocationsRequest(idStr, artists)
    case MissingId =>
      return BadRequest("missing id"), [];
    case InvalidId =>
      return BadRequest("invalid id"), [];
    case UnknownArtist =>
      return NotFound, [];
    case Selected(i) =>
      var uniq := UniquePlaces(artists[i]);
      var points, asked, _ := GeocodePlaces(uniq, lookup);
      return Points(points), asked;
  }
}
