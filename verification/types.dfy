/** The records the tracker decodes from its four upstream collections and the
    joined record it serves, plus the small wrapper types the rest of the model
    shares. */
module Types {

  /** A value that may be absent (a failed parse, a missing map entry). */
  datatype Option<+T> = None | Some(value: T)

  /** Go's `int` on a 64-bit platform. Identifiers are decoded into it, so an
      identifier outside this range never reaches the join. */
  const MinInt: int := -0x8000_0000_0000_0000
  const MaxInt: int := 0x7FFF_FFFF_FFFF_FFFF

  type GoInt = x: int | MinInt <= x <= MaxInt

  /** One artist profile as served by the artists collection. */
  datatype Artist = Artist(
    id: GoInt,
    image: string,
    name: string,
    members: seq<string>,
    creationDate: GoInt,
    firstAlbum: string,
    relations: string)

  /** One entry of the locations index or of the dates index: an artist
      identifier and its ordered list of place names (or of date strings).
      Both indices have this shape. */
  datatype IdList = IdList(id: GoInt, items: seq<string>)

  /** One entry of the relation index: an artist identifier and the dates
      performed at each place. */
  datatype RelationEntry = RelationEntry(id: GoInt, datesLocations: map<string, seq<string>>)

  /** The denormalised record built once at start-up for each artist. */
  datatype ArtistFull = ArtistFull(
    artist: Artist,
    locations: seq<string>,
    dates: seq<string>,
    datesByPlace: map<string, seq<string>>)
}
