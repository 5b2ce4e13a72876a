/** The search box of the index page: artists whose lower-cased name contains
    the lower-cased query, in list order; an empty query shows everyone. */
module Search {
  import opened Types
  import opened GoStrings

  /** The name test applied to each artist, with the query already
      lower-cased. */
  predicate NameMatches(a: ArtistFull, queryLower: string) {
    Contains(ToLower(a.artist.name), queryLower)
  }

  /** The matching artists, in the order of `artists`. */
  function Filter(artists: seq<ArtistFull>, queryLower: string): (r: seq<ArtistFull>)
    ensures |r| <= |artists|
    ensures forall a :: a in r <==> a in artists && NameMatches(a, queryLower)
  {
    if artists == [] then []
    else
      var last := artists[|artists| - 1];
      Filter(artists[..|artists| - 1], queryLower) + (if NameMatches(last, queryLower) then [last] else [])
  }

  /** `indexHandler`'s selection: the whole list for an empty query,
      otherwise one pass that appends each matching artist. */
  method SearchArtists(query: string, artists: seq<ArtistFull>) returns (shown: seq<ArtistFull>)
    ensures query == "" ==> shown == artists
    ensures query != "" ==> shown == Filter(artists, ToLower(query))
  {
    if query == "" {
      return artists;
    }
    var queryLower := ToLower(query);
    shown := [];
    var i := 0;
    while i < |artists|
      invariant 0 <= i <= |artists|
      invariant shown == Filter(artists[..i], queryLower)
    {
      if Contains(ToLower(artists[i].artist.name), queryLower) {
        shown := shown + [artists[i]];
      }
      assert artists[..i + 1][..i] == artists[..i];
      i := i + 1;
    }
    assert artists[..i] == artists;
  }

  /** Filtering keeps relative order: it distributes over concatenation. */
  lemma {:induction false} FilterDistributes(xs: seq<ArtistFull>, ys: seq<ArtistFull>, queryLower: string)
    ensures Filter(xs + ys, queryLower) == Filter(xs, queryLower) + Filter(ys, queryLower)
    decreases |ys|
  {
    if ys == [] {
      assert xs + ys == xs;
    } else {
      var init, last := ys[..|ys| - 1], ys[|ys| - 1];
      var tail := if NameMatches(last, queryLower) then [last] else [];
      assert (xs + ys)[..|xs + ys| - 1] == xs + init;
      assert (xs + ys)[|xs + ys| - 1] == last;
      assert Filter(xs + ys, queryLower) == Filter(xs + init, queryLower) + tail;
      assert Filter(ys, queryLower) == Filter(init, queryLower) + tail;
      FilterDistributes(xs, init, queryLower);
      assert Filter(xs, queryLower) + Filter(init, queryLower) + tail
          == Filter(xs, queryLower) + (Filter(init, queryLower) + tail);
    }
  }

  /** A query that every name contains keeps the whole list, so the empty
      query's short cut agrees with filtering on "". */
  lemma {:induction false} EmptyQueryKeepsAll(artists: seq<ArtistFull>)
    ensures Filter(artists, ToLower("")) == artists
    decreases |artists|
  {
    if artists != [] {
      EmptyQueryKeepsAll(artists[..|artists| - 1]);
      assert OccursAt(ToLower(artists[|artists| - 1].artist.name), "", 0);
    }
  }

  /** Searching again with the same query changes nothing. */
  lemma {:induction false} FilterIdempotent(artists: seq<ArtistFull>, queryLower: string)
    ensures Filter(Filter(artists, queryLower), queryLower) == Filter(artists, queryLower)
    decreases |artists|
  {
    if artists != [] {
      var init := artists[..|artists| - 1];
      var last := artists[|artists| - 1];
      FilterIdempotent(init, queryLower);
      var tail := if NameMatches(last, queryLower) then [last] else [];
      FilterDistributes(Filter(init, queryLower), tail, queryLower);
      if NameMatches(last, queryLower) {
        assert Filter(tail, queryLower) == tail by {
          assert tail[..0] == [];
        }
      }
    }
  }

  /** A query spelling an artist's name in any mix of cases finds that
      artist. */
  lemma SearchFindsNameInAnyCase(artists: seq<ArtistFull>, i: int, query: string)
    requires 0 <= i < |artists|
    requires ToLower(query) == ToLower(artists[i].artist.name)
    ensures artists[i] in Filter(artists, ToLower(query))
  {
    assert OccursAt(ToLower(query), ToLower(query), 0);
  }
}
