/** The start-up join (`loadData`): the locations, dates and relation indices
    are merged onto the artist list, one `ArtistFull` per artist. Locations and
    dates pass through an identifier-keyed map, so the LAST index entry with a
    given identifier wins; relations are found by a linear scan that stops at
    the FIRST match. */
module Aggregate {
  import opened Types

  /** Some entry of the index carries `id`. */
  predicate HasEntry(entries: seq<IdList>, id: int) {
    exists j :: 0 <= j < |entries| && entries[j].id == id
  }

  /** `j` is the last position of the index carrying `id`. */
  predicate IsLastWith(entries: seq<IdList>, id: int, j: int) {
    && 0 <= j < |entries|
    && entries[j].id == id
    && forall k :: j < k < |entries| ==> entries[k].id != id
  }

  /** Some relation entry carries `id`. */
  predicate HasRelation(rels: seq<RelationEntry>, id: int) {
    exists j :: 0 <= j < |rels| && rels[j].id == id
  }

  /** `j` is the first position of the relation index carrying `id`. */
  predicate IsFirstWith(rels: seq<RelationEntry>, id: int, j: int) {
    && 0 <= j < |rels|
    && rels[j].id == id
    && forall k :: 0 <= k < j ==> rels[k].id != id
  }

  /** The map `locByID` (or `datesByID`): each entry in index order stores
      its list under its identifier, overwriting any earlier one. */
  method IndexById(entries: seq<IdList>) returns (m: map<GoInt, seq<string>>)
    ensures forall id: GoInt :: id in m <==> HasEntry(entries, id)
    ensures forall id, j :: IsLastWith(entries, id, j) ==> id in m && m[id] == entries[j].items
  {
    m := map[];
    var i := 0;
    while i < |entries|
      invariant 0 <= i <= |entries|
      invariant forall id: GoInt :: id in m <==> HasEntry(entries[..i], id)
      invariant forall id, j :: IsLastWith(entries[..i], id, j) ==> id in m && m[id] == entries[j].items
    {
      var e := entries[i];
      var seen, next := entries[..i], entries[..i + 1];
      forall id, j | IsLastWith(next, id, j)
        ensures id in m[e.id := e.items] && m[e.id := e.items][id] == entries[j].items
      {
        if id != e.id {
          assert IsLastWith(seen, id, j);
        }
      }
      forall id: GoInt
        ensures HasEntry(entries[..i + 1], id) <==> HasEntry(entries[..i], id) || id == e.id
      {
        if HasEntry(entries[..i + 1], id) && id != e.id {
          var j :| 0 <= j < i + 1 && entries[..i + 1][j].id == id;
          assert entries[..i][j].id == id;
        }
        if HasEntry(entries[..i], id) {
          var j :| 0 <= j < i && entries[..i][j].id == id;
          assert entries[..i + 1][j].id == id;
        }
        if id == e.id {
          assert entries[..i + 1][i].id == id;
        }
      }
      m := m[e.id := e.items];
      i := i + 1;
    }
    assert entries[..i] == entries;
  }

  /** Go's `m[id]` on a map of slices: the stored list, or the zero value (an
      empty list) when the key is absent. */
  function LookupOrEmpty(m: map<GoInt, seq<string>>, id: GoInt): seq<string> {
    if id in m then m[id] else []
  }

  /** The relation scan: the `DatesLocations` of the first entry carrying
      `id`, or the empty map the record was initialised with. */
  method FirstRelation(rels: seq<RelationEntry>, id: GoInt) returns (dl: map<string, seq<string>>)
    ensures forall j :: IsFirstWith(rels, id, j) ==> dl == rels[j].datesLocations
    ensures !HasRelation(rels, id) ==> dl == map[]
  {
    dl := map[];
    var k := 0;
    while k < |rels|
      invariant 0 <= k <= |rels|
      invariant forall j :: 0 <= j < k ==> rels[j].id != id
      invariant dl == map[]
    {
      if rels[k].id == id {
        dl := rels[k].datesLocations;
        assert IsFirstWith(rels, id, k);
        return;
      }
      k := k + 1;
    }
  }

  /** The loop over the artists: each artist, its lists looked up in the two
      maps, and its relation map found by the scan, appended in order. */
  method JoinArtists(artists: seq<Artist>, locById: map<GoInt, seq<string>>,
                     datesById: map<GoInt, seq<string>>, relations: seq<RelationEntry>)
    returns (full: seq<ArtistFull>)
    ensures |full| == |artists|
    ensures forall i :: 0 <= i < |artists| ==>
      && full[i].artist == artists[i]
      && full[i].locations == LookupOrEmpty(locById, artists[i].id)
      && full[i].dates == LookupOrEmpty(datesById, artists[i].id)
    ensures forall i, j :: 0 <= i < |artists| && IsFirstWith(relations, artists[i].id, j) ==>
      full[i].datesByPlace == relations[j].datesLocations
    ensures forall i :: 0 <= i < |artists| && !HasRelation(relations, artists[i].id) ==>
      full[i].datesByPlace == map[]
  {
    full := [];
    var i := 0;
    while i < |artists|
      invariant 0 <= i <= |artists|
      invariant |full| == i
      invariant forall n :: 0 <= n < i ==>
        && full[n].artist == artists[n]
        && full[n].locations == LookupOrEmpty(locById, artists[n].id)
        && full[n].dates == LookupOrEmpty(datesById, artists[n].id)
      invariant forall n, j :: 0 <= n < i && IsFirstWith(relations, artists[n].id, j) ==>
        full[n].datesByPlace == relations[j].datesLocations
      invariant forall n :: 0 <= n < i && !HasRelation(relations, artists[n].id) ==>
        full[n].datesByPlace == map[]
    {
      var a := artists[i];
      var byPlace := FirstRelation(relations, a.id);
      var af := ArtistFull(a, LookupOrEmpty(locById, a.id), LookupOrEmpty(datesById, a.id), byPlace);
      ghost var before := full;
      full := full + [af];
      assert forall n :: 0 <= n < i ==> full[n] == before[n];
      assert full[i] == af;
      i := i + 1;
    }
  }

  /** `loadData` after the four collections have been decoded. */
  method LoadData(artists: seq<Artist>, locations: seq<IdList>, dates: seq<IdList>,
                  relations: seq<RelationEntry>)
    returns (full: seq<ArtistFull>)
    ensures |full| == |artists|
    ensures forall i :: 0 <= i < |artists| ==> full[i].artist == artists[i]
    ensures forall i, j :: 0 <= i < |artists| && IsLastWith(locations, artists[i].id, j) ==>
      full[i].locations == locations[j].items
    ensures forall i :: 0 <= i < |artists| && !HasEntry(locations, artists[i].id) ==>
      full[i].locations == []
    ensures forall i, j :: 0 <= i < |artists| && IsLastWith(dates, artists[i].id, j) ==>
      full[i].dates == dates[j].items
    ensures forall i :: 0 <= i < |artists| && !HasEntry(dates, artists[i].id) ==>
      full[i].dates == []
    ensures forall i, j :: 0 <= i < |artists| && IsFirstWith(relations, artists[i].id, j) ==>
      full[i].datesByPlace == relations[j].datesLocations
    ensures forall i :: 0 <= i < |artists| && !HasRelation(relations, artists[i].id) ==>
      full[i].datesByPlace == map[]
  {
    var locById := IndexById(locations);
    var datesById := IndexById(dates);
    full := JoinArtists(artists, locById, datesById, relations);
  }
}
