/** The set of place names the locations endpoint geocodes for one artist:
    tour locations plus relation-map keys, blank names dropped, the remaining
    names kept exactly as written (untrimmed, case-sensitive). */
module Places {
  import opened Types
  import opened GoStrings

  /** A name is kept when it is not blank after trimming. */
  predicate IsPlaceName(s: string) {
    TrimSpace(s) != ""
  }

  /** The places of `af`, stated as a set: every non-blank string among its
      locations and its relation-map keys. */
  function PlaceSet(af: ArtistFull): set<string> {
    set s | s in (set l | l in af.locations) + af.datesByPlace.Keys && IsPlaceName(s)
  }

  /** The two passes that fill the `uniq` map: over a list of names, then
      over a set of keys in whatever order the map yields them, adding every
      name that passes `keep`. */
  method CollectUnique(names: seq<string>, keys: set<string>, keep: string -> bool)
    returns (uniq: set<string>)
    ensures forall s :: s in uniq <==> (s in names || s in keys) && keep(s)
  {
    uniq := {};
    var i := 0;
    while i < |names|
      invariant 0 <= i <= |names|
      invariant forall s :: s in uniq <==> s in names[..i] && keep(s)
    {
      if keep(names[i]) {
        uniq := uniq + {names[i]};
      }
      assert names[..i + 1] == names[..i] + [names[i]];
      i := i + 1;
    }
    assert names[..i] == names;
    var fromNames := uniq;
    var rest := keys;
    var visited: set<string> := {};
    while rest != {}
      invariant rest + visited == keys
      invariant forall s :: s in uniq <==> s in fromNames || (s in visited && keep(s))
      decreases rest
    {
      var k :| k in rest;
      if keep(k) {
        uniq := uniq + {k};
      }
      rest := rest - {k};
      visited := visited + {k};
    }
  }

  /** The handler's `uniq` for one artist: its locations, then its relation
      keys, each kept when it is not blank after trimming. */
  method UniquePlaces(af: ArtistFull) returns (uniq: set<string>)
    ensures uniq == PlaceSet(af)
  {
    uniq := CollectUnique(af.locations, af.datesByPlace.Keys, IsPlaceName);
  }

  /** Every tour location and every relation key that has a non-space
      character is a place; nothing else is. */
  lemma PlaceSetMembership(af: ArtistFull, s: string)
    ensures s in PlaceSet(af) <==> (s in af.locations || s in af.datesByPlace) && !IsBlank(s)
  {
    TrimSpaceEmptyIffBlank(s);
  }
}
