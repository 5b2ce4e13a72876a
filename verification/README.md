# groupie-tracker: a Dafny model of the join, lookup, search and geocoding logic

The tracker is a small Go web server. At start-up it fetches four collections:
artists, tour locations, dates, and date-location relations. It joins them into
one `ArtistFull` record per artist. It then serves an index page with a name
search, two pages per artist (`/artist` and `/artist_map`), and two JSON
endpoints (`/api/artists`, the joined list, and `/api/artist_locations`).
Given an artist id, `/api/artist_locations` geocodes each of the artist's
places through an external geocoder.

This project models the pure data handling of `main.go` as immutable Dafny data
and proves properties about it:

- `types.dfy` (`Types`): the decoded records (`Artist`, `IdList` for the
  locations and dates indices, `RelationEntry`) and the joined `ArtistFull`.
  Go's 64-bit `int` is the subset type `GoInt`.
- `aggregate.dfy` (`Aggregate`): `loadData`'s join. Locations and dates go
  through an id-keyed map, so the last index entry with an id wins. Relations
  are found by a scan that stops at the first match. A missing entry gives an
  empty list or an empty map.
- `gostrings.dfy` (`GoStrings`): `unicode.IsSpace`, `strings.TrimSpace`,
  `strings.ToLower` (ASCII letters only) and `strings.Contains`.
- `decimal.dfy` (`Decimal`): the handler's `itoa` (`fmt.Sprintf("%d")`) and
  `strconv.Atoi`, with the round trip and the canonical-form characterisation.
- `places.dfy` (`Places`): the set of unique place names one artist is
  geocoded for.
- `geocode.dfy` (`Geocode`): the per-place geocoding loop, and the rule that
  decides whether a lookup contributes a point. The geocoder is a function
  parameter returning a `Lookup` outcome.
- `search.dfy` (`Search`): the index page's case-insensitive name filter.
- `handlers.dfy` (`Handlers`): how the `id` parameter selects an artist. The
  locations endpoint uses `Atoi` and then id equality. The artist pages use
  exact equality with the rendered id. The module also composes the locations
  endpoint end to end.

Points of the code's behaviour that the model keeps as they are:

- The locations handler has no geocode cache (main.go:230). Every accepted
  request geocodes all places again.
- The 300 ms pause runs only after a point is appended. Every skip path
  `continue`s past the `time.Sleep` at main.go:310. `Geocode.GeocodePlaces`
  states this as `pauses == |results|`.
- Only JSON-string coordinates are accepted (main.go:296-299). A `lat` or
  `lon` that is missing, a number, a boolean, `null` or an object skips the
  place (`Geocode.SkippedLookups`).
- The locations handler answers 200, 400 or 404 only; it has no 500 path.

## Model

| member | source | states |
|---|---|---|
| `Aggregate.IndexById` | main.go:98-106 | The id-keyed map holds an id exactly when some index entry carries it. Its value is the list of the LAST entry with that id. |
| `Aggregate.FirstRelation` | main.go:113-121 | The relation map is the `DatesLocations` of the FIRST relation entry with the artist's id. With no such entry it is the empty map. |
| `Aggregate.JoinArtists` | main.go:108-124 | The loop over the artists appends one record per artist, in order. Each record keeps the artist unchanged, takes its lists from the two maps, where a missing key reads as Go's zero value, the empty list (the helper `LookupOrEmpty`), and it takes the relation map of the first matching relation entry (empty when none matches). |
| `Aggregate.LoadData` | main.go:98-124 | The join gives exactly one record per artist, in input order, with the artist's fields unchanged. Locations and dates come from the last index entry with the id, or are empty when there is none. The relation map comes from the first matching relation entry, or is empty. |
| `GoStrings.TrimLeft` | main.go:258 | Leading trim: the result is a suffix of the input, everything dropped is white space, and the result does not start with white space. |
| `GoStrings.TrimRight` | main.go:258 | Trailing trim: the result is a prefix of the input, everything dropped is white space, and the result does not end with white space. |
| `GoStrings.TrimSpaceEmptyIffBlank` | main.go:258 | A name trims to "" exactly when every character is white space in Go's `unicode.IsSpace` sense. |
| `GoStrings.IsSpace` | main.go:258 | Go's `unicode.IsSpace`: on Latin-1 it holds exactly for the eight characters of Go's fast-path switch (tab, newline, vertical tab, form feed, carriage return, space, U+0085, U+00A0), and it never holds above U+3000. |
| `GoStrings.TrimSpace` | main.go:258 | Go's `strings.TrimSpace`: the result sits somewhere in the name, everything before and after it is white space, and it neither starts nor ends with white space. |
| `GoStrings.TrimSpaceUnique` | main.go:263 | Any piece of a name that is surrounded only by white space and has no white space at its ends is the trimmed name. With `TrimSpace`'s contract this pins the trim down completely. |
| `GoStrings.ToLower` | main.go:151-153 | Lower-casing keeps the length and maps each upper-case ASCII letter to its lower-case letter (code point plus 32). It leaves no upper-case ASCII letter and changes no other character. |
| `GoStrings.Contains` | main.go:153 | Go's `strings.Contains`: the scan over start positions holds exactly when the query occurs at some position of the name, so always for the empty query. |
| `Decimal.Atoi` | main.go:237-241 | `Atoi` succeeds exactly on an optional sign followed by at least one digit whose value fits in 64 bits, and it returns that value. |
| `Decimal.ScanDigits` | main.go:237 | The digit loop of `strconv.Atoi` succeeds exactly on all-digit strings, and it never lowers the accumulator it starts from. |
| `Decimal.ScanDigitsValue` | main.go:237 | The left-to-right digit loop computes the positional value of the digits and rejects any string holding a non-digit. |
| `Decimal.Itoa` | main.go:317-319 | `itoa` (`fmt.Sprintf("%d", i)`): every rendering is canonical (no sign other than '-', no leading zero, no "-0") and denotes the rendered integer. |
| `Decimal.AtoiItoaRoundTrip` | main.go:317-319 | Parsing a rendered 64-bit integer gives back that integer. |
| `Decimal.ItoaIffCanonical` | main.go:317-319 | A string is the rendering of `i` exactly when it is canonical and denotes `i`. So the rendering is injective and its image is the canonical strings. |
| `Decimal.ItoaInjective` | main.go:317-319 | Distinct integers render to distinct strings. |
| `Decimal.AtoiAcceptsNonCanonical` | main.go:237 | `Atoi` accepts "07", "+7" and "-0", which are not renderings of any integer. |
| `Places.CollectUnique` | main.go:256-266 | The pass over the names and then the pass over the keys yield exactly the names and keys that pass the keep test, each once, whatever order the keys come in. |
| `Places.UniquePlaces` | main.go:255-266 | An artist's places are exactly the non-blank strings among its locations and relation keys. Names are kept untrimmed and compared case-sensitively. |
| `Places.PlaceSetMembership` | main.go:255-266 | A string is a place exactly when it is a location or a relation key and is not all white space. |
| `Geocode.Coordinates` | main.go:292-302 | A lookup yields coordinates `(lat, lon)` exactly when it decoded to a non-empty candidate list whose first candidate has JSON-string `lat` and `lon` fields equal to them. |
| `Geocode.SkippedLookups` | main.go:274-299 | A place contributes nothing after a request, transport or decoding failure, after an empty candidate list, or when the first candidate's `lat` or `lon` is missing or is not a JSON string. |
| `Geocode.GeocodePlaces` | main.go:269-311 | Every place is looked up exactly once. The answer holds at most one point per place, and never more points than places. Each point carries its place's coordinates, and every place with coordinates appears. A pause follows each point. |
| `Geocode.GeocodeIsDeterminedUpToOrder` | main.go:269-309 | Any two answers that meet the loop's contract hold the same points, each once. They differ only in order, which follows Go's map iteration. |
| `Geocode.DistinctPointsCount` | main.go:304-308 | A point list with distinct place names has as many points as distinct points. |
| `Geocode.BerlinIsSkipped` | main.go:292-294 | With "paris" and "london" resolving and "Berlin" returning no candidate, the answer is exactly the two resolved points. |
| `Search.Filter` | main.go:151-156 | The filtered list is no longer than the input. It holds exactly those artists whose lower-cased name contains the lower-cased query. |
| `Search.SearchArtists` | main.go:145-157 | An empty query shows every artist. Otherwise the pass that appends each matching artist produces the filtered list. |
| `Search.FilterDistributes` | main.go:152-156 | Filtering distributes over concatenation, so matches keep their relative order. |
| `Search.EmptyQueryKeepsAll` | main.go:148-150 | Filtering with the empty query keeps everything, so the empty-query short cut agrees with the filter. |
| `Search.FilterIdempotent` | main.go:152-156 | Filtering a filtered list again with the same query changes nothing. |
| `Search.SearchFindsNameInAnyCase` | main.go:151-153 | A query that spells an artist's name in any mix of ASCII cases finds that artist. |
| `Handlers.FirstWhere` | main.go:244-249 | The scan returns the first position satisfying the test, or reports that none does. |
| `Handlers.ClassifyLocationsRequest` | main.go:232-253 | An empty id gives 400 "missing id". A non-integer or out-of-range id gives 400 "invalid id". An id that no artist has gives 404. Otherwise the first artist with that id is selected. |
| `Handlers.ArtistPageLookup` | main.go:173-191 | A page finds the first artist whose rendered id equals the parameter exactly. An empty parameter finds nothing. The map page repeats this lookup. |
| `Handlers.PageFoundIffCanonical` | main.go:181-187 | A page is found exactly when the parameter is the canonical decimal form of some artist's id. |
| `Handlers.PageAgreesWithLocations` | main.go:210-216 | Whenever a page finds an artist, the locations endpoint with the same parameter selects that same artist. |
| `Handlers.LeadingZeroFindsNoPage` | main.go:182 | As decoded `id` values, "07" and "+7" reach artist 7 through the locations endpoint but find no page. |
| `Handlers.ApiArtistLocations` | main.go:231-315 | A rejected request (400 or 404) makes no outbound lookup. An accepted one looks up each place of the selected artist once and answers 200 with that artist's geocoded points (their encoding, which fails for a NaN or infinite coordinate, is not modelled). |

## Left out

- Fetching and decoding the four collections (`fetchJSON`, the network calls, `log.Fatal` on failure). These are I/O; the decoded lists are the inputs of `Aggregate.LoadData`.
- JSON `null` lists and maps, and Go's nil-versus-empty distinction. Both are modelled as empty.
- Routing, template parsing and rendering, `main`, and the `/api/artists` handler. They only encode or display the joined list.
- The outbound geocoder request: URL escaping, the `limit=1` query, the `User-Agent` header, and the 10-second client timeout. These are network concerns. The geocoder is the `lookup` parameter, and its failures are the `Lookup` outcomes.
- The length of the 300 ms pause. Only the pauses are counted (`pauses`), because time is not modelled.
- `strconv.ParseFloat` of the coordinates and the float values in the JSON answer. These are floating point. Points carry the coordinate strings the geocoder sent.
- The `log.Printf` on a geocoder transport failure (main.go:282). It is logging only; the place is skipped as after any other failure (`Lookup.TransportError`).
- The order of places and results. It follows Go's map iteration, which is unspecified, so the loops choose nondeterministically and the contracts do not depend on the order.
- A geocode cache and any locking. The code has neither.
- `GoStrings.ToLower`: only the ASCII letters A-Z are lower-cased. Go's Unicode case mapping of other letters is not modelled, so for non-ASCII names the search model can be stricter than the code.
- `Decimal.Atoi`: syntax errors and range errors are both `None`, because the handler answers "invalid id" to both. Go's `int` is taken to be 64 bits wide.
- Strings are sequences of Unicode scalar values. Go's byte-level UTF-8 handling of invalid input is not modelled.
- Query-string decoding by `r.URL.Query().Get("id")`. The model takes the decoded `id` value, so a literal `?id=+7` arrives as " 7" (rejected by `Atoi`); only `%2B7` delivers "+7".
- `Handlers.ApiArtistLocations`: the reply is modelled as the list of points with their coordinate strings. A coordinate that `strconv.ParseFloat` reads as NaN or an infinity ("NaN", "Inf", "1e999") makes the JSON encoding at main.go:314 fail. Go then sends 200 with an empty body, and the whole reply is lost; the model still answers `Points`, because float parsing and encoding are not modelled.
- `static/js/script.js`: client-side animation and its own search fallback. This is UI code.
