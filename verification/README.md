# lovelyplace-back: a Dafny model of the catalog filters, the nearby search and the photo list

lovelyplace-back is an Express server over a MongoDB collection of places (`Location`
records). This project models in Dafny the logic that sits under its HTTP, database,
image-hosting and geocoding plumbing:

- **Catalog filters** (`catalog.dfy`, module `Catalog`). `/drink` and `/filterCategories`
  build a MongoDB filter from optional query-string parameters. Category, postal code and
  price range must be equal. `keywords` is split on `,` and matches if any one token is present
  (`$in`). `filters` is split on `,` and matches only if every token is present (`$all`).
  The builders are methods that add one clause per truthy parameter. They are proved equal
  to `CompiledFilter`. `Location.find` is `Find`, which returns the matching records in
  catalog order. `Satisfies` states directly on the record what a query means.
- **Nearby search** (`nearby.dfy`, module `Nearby`; `ranking.dfy`, module `Ranking`).
  `/filter-nearby` rejects a missing address or category with 400. It geocodes the user's
  address and fails with 500 if that fails. It fetches the locations of the category and
  geocodes each one in order: a failed geocode drops that candidate only. It keeps the
  candidates with `distance <= maxDistance`, then sorts them in place with a stable
  insertion sort on an `array`.
  - The geocoding service is a parameter `geocode: string -> Option<Coord>`. Being a
    function, it gives the same answer every time it is asked about the same address: the
    origin and a candidate, or two candidates, that share an address geocode alike. The
    model assumes the service behaves that way.
  - The haversine formula is a parameter `distance: (Coord, Coord) -> real`.
  - Outbound calls are returned as a trace of `Call` values.
- **Photo list** (`photos.dfy`, module `Photos`). `LocationPhotos` is a class whose `photos`
  field the methods update in place:
  - `AddPhotos` pushes the uploaded URLs in order.
  - `RemovePhoto` finds the URL with `IndexOf`, answers 404 when it is absent, and otherwise
    destroys the image named by `PublicId(url)`. If that destroy call throws, the answer is
    500 and the list is unchanged; otherwise the first occurrence is spliced out.
  - Image uploads and destroys are parameters `upload: string -> Option<string>` and
    `destroy: string -> bool`.
- **`extractHref`** (`href.dfy`, module `Href`). A scanner for the pattern
  `href=["']([^"']+)["']` that returns the capture of the leftmost match. It is proved equal
  to a declarative reading of the pattern (`CapturesAt`). `ProcessMediaLink` maps it over an
  array-valued `mediaLink`.
- `strings.dfy` (module `Strings`) models `String.prototype.split` on one character and proves
  that splitting and joining are inverse. `wrappers.dfy` holds `Option` and, in module `Http`,
  the reply type, the status codes and JavaScript truthiness of a query parameter.

Behaviours of the code that a reader might not expect, and that the model keeps:
- Candidates are geocoded one after another, with no cache and no concurrency.
- `maxDistance` is not validated. When it is absent or not a number, every comparison is
  false. If the origin address geocodes, the reply is then 200 with `[]`; a failed origin
  geocode is still a 500.
- A missing `placeCategory` is a 400.
- The nearby catalog query filters on the category only.
- `/drink` and `/filterCategories` answer 404, not 200, when nothing matches.

## Model

| member | source | states |
|---|---|---|
| Strings.Split | index.js:277 | `split(",")` never gives an empty list, no piece holds the separator, and joining the pieces gives the input back |
| Strings.SplitJoin | index.js:281 | splitting a join of separator-free pieces gives the pieces back (the other half of the round trip) |
| Catalog.Find | index.js:360 | `Location.find(f)` never returns more records than the catalog holds |
| Catalog.FindMeaning | index.js:360 | `Location.find(f)` returns exactly the catalog records that match every clause of `f` |
| Catalog.MatchesEveryClause | index.js:348-360 | a record matches a filter iff every clause the filter holds is satisfied by the record's value in that field, whichever fields the filter names |
| Catalog.CompiledFilterMeaning | index.js:348-357 | a record matches the compiled filter iff it satisfies every truthy parameter: equal category, postal code and price range; at least one shared keyword token (`$in`); every filter token present (`$all`) |
| Catalog.EmptyQueryFindsAll | index.js:348-360 | with no truthy parameter the filter is `{}` and `find` returns the whole catalog in order |
| Catalog.MoreParametersNarrow | index.js:348-357 | supplying more parameters can only narrow the results: each clause is one more conjunct |
| Catalog.FindConcat | index.js:360 | `find` keeps catalog order: the matches of `a + b` are the matches of `a` followed by those of `b` |
| Catalog.AddOptionalClauses | index.js:276-283 | adds exactly one clause per truthy `postalCode`, `keywords`, `priceRange` and `filters` parameter, none for absent or empty ones, and leaves the category clause as it was |
| Catalog.BuildCategoryFilter | index.js:348-357 | the filter built field by field from `{}` is the compiled filter of the query and selects exactly the records that satisfy the query |
| Catalog.BuildDrinkFilter | index.js:273-283 | the `/drink` filter is the compiled filter with the category fixed to `prendre_un_verre` whatever the request says, and every record it matches has that category |
| Catalog.FilterCategories | index.js:344-368 | 404 with no body iff no catalog record satisfies the query; otherwise 200 with `find`'s result, which holds exactly the satisfying records |
| Catalog.Drink | index.js:270-294 | 404 iff no record of the drink category satisfies the optional parameters; otherwise 200 with the matches, all of the drink category |
| Ranking.StableSortSorted | index.js:470 | the sorted result is in ascending order of distance |
| Ranking.StableSortPermutes | index.js:470 | the sorted result is a permutation of the input |
| Ranking.StableSortStable | index.js:470 | the sort is stable: at every distance, the sorted result lists the same entries in the same order as the input |
| Ranking.OpenGap | index.js:470 | the scan shifts the strictly farther entries of the sorted prefix one place right and stops just after the last entry that is not farther than the one being inserted |
| Ranking.InsertAt | index.js:470 | moving `a[i]` left past the strictly farther entries of the prefix turns `a[..i + 1]` into the functional insertion of `a[i]` into `a[..i]` and leaves the rest of the array alone |
| Ranking.SortByDistance | index.js:470 | the in-place sort leaves the array holding `StableSort` of its old contents |
| Nearby.KeptSound | index.js:447-467 | every pushed entry comes from a candidate whose geocode succeeded with the entry's coordinates, and its distance is the computed distance and is within `maxDistance` |
| Nearby.KeptComplete | index.js:448-460 | every candidate that geocodes to a point within `maxDistance` is pushed, with that point and distance |
| Nearby.KeptSkipsFailure | index.js:449-466 | a candidate whose geocode throws is skipped and changes nothing else: the kept list equals the one computed without that candidate |
| Nearby.KeptNeedsMaxDistance | index.js:453 | with `maxDistance` absent or not a number, no candidate is kept |
| Nearby.CollectNearby | index.js:447-467 | the loop pushes exactly `Kept` and makes one geocode call per candidate, in catalog order |
| Nearby.NearbyResultSound | index.js:427-470 | the 200 body is sorted by distance, and every entry is a catalog location of the requested category, geocoded successfully, within `maxDistance` |
| Nearby.NearbyResultComplete | index.js:441-470 | every catalog location of the category that geocodes to a point within `maxDistance` is in the 200 body |
| Nearby.NearbyResultOrder | index.js:470 | the 200 body is a permutation of the kept entries, and entries at equal distance keep catalog order |
| Nearby.FilterNearby | index.js:380-477 | missing address or category: 400 with no outbound call. Failed origin geocode: 500 after that one call. Otherwise: one geocode of the origin, one `find` by category, one geocode per candidate in order, then 200 with the kept candidates sorted |
| Photos.UploadAll | index.js:193-199 | the uploads succeed together iff every file uploads, and then the URLs are the files' upload results in file order |
| Photos.IndexOf | index.js:240 | `indexOf` gives -1 iff the URL is absent, and otherwise the position of its first occurrence |
| Photos.LocationPhotos.AddPhotos | index.js:193-206 | success iff every upload succeeds, and then the URLs are appended in order; on failure there is a first file whose upload failed, every earlier one uploaded, and the list is the old list followed by exactly those earlier URLs |
| Photos.LocationPhotos.RemovePhoto | index.js:239-264 | an absent URL gives 404, no destroy call and an unchanged list; otherwise destroy is called with the URL's public id; if it throws, 500 and an unchanged list; if it succeeds, exactly the first occurrence is removed, the length drops by one, and 200 returns the new list |
| Photos.RemoveFirstAt | index.js:250 | `splice(i, 1)` at the first occurrence is `RemoveFirst`: the other elements keep their order |
| Photos.RemoveFirstCounts | index.js:250 | removing a present URL drops the length by one and exactly one copy of the URL |
| Photos.RemoveFirstAbsent | index.js:240-243 | removing an absent URL changes nothing |
| Photos.PublicIdIsPlain | index.js:246 | the public id contains neither `/` nor `.` |
| Photos.PublicIdLocated | index.js:246 | the public id is the part of the URL after its last `/` and before the next `.` |
| Href.RunLength | index.js:82 | `[^"']+` takes the longest run of quote-free characters, and it stops at a quote or at the end of the string |
| Href.MatchAtMeaning | index.js:82 | the scanner at one position captures `v` iff the pattern can match there capturing `v` |
| Href.ExtractHref | index.js:81-85 | a returned link is non-empty and holds no `'` or `"` |
| Href.ExtractHrefMeaning | index.js:81-85 | the link is the capture of the leftmost match, and null means the pattern matches nowhere |
| Href.ProcessMediaLink | index.js:87-90 | an array `mediaLink` is mapped element by element through `extractHref` and keeps its length; any other value is kept as it is |

## Left out

- Express routing, CORS, file-upload parsing and `listen` (index.js:11-14, 481-484): handlers take their parameters and return a status and payload.
- The MongoDB connection and schema, `findById` and `save` (index.js:17-42, 130, 159, 182, 213, 234, 253). The catalog is a sequence and `find` a filter over it. `RemovePhoto` and `AddPhotos` act on an already-found document, so the "Location non trouvée" 404 and persistence are not modelled.
- A `find` that throws (the 500 paths of index.js:295-304, 369-375, 474-476 when the database fails). The catalog here is always available.
- The Google geocoding HTTP call (index.js:393-408). It is the `geocode` oracle, and a provider answer with no result is None.
- The haversine formula (index.js:411-424). It uses floating-point trigonometry and is the `distance` parameter, returning a `real`.
- Coercion of the `maxDistance` string to a number (index.js:453). `maxDistance` is an `Option<real>`, and None stands for an absent or non-numeric value.
- The Cloudinary upload and destroy calls and the base64 data-URL construction (index.js:50-52, 119, 197, 247). Upload is the `upload` oracle over data URLs, with None for a throwing call. Destroy is the `destroy` oracle, with false for a throwing call; the public id passed to it is reported.
- The photo upload loop of `POST /location` (index.js:109-127). It is the same loop as `AddPhotos`, started on an empty list.
- `JSON.parse` of string fields and the `Object.assign` mass update (index.js:73-79, 210). Both are library behaviour. Because of this, a request body that carries `photos` could overwrite the appended URLs, and the model does not capture that.
- `extractHref` on a non-string array element, which throws in JavaScript. `mediaLink` array elements are strings here.
- ProcessMediaLink: a non-array `mediaLink` is modelled as a string (`Other(raw)`). After `JSON.parse` it could also be an object, a number or undefined. Each of these is passed through unchanged like the string, so only the type is narrower.
- Query parameters given more than once, which Express turns into arrays. Every parameter is an optional string.
- The unused `typeOfSeason` parameter, the commented-out clause and the console logging (index.js:431-444).
- The `/items`, `/items/:id`, `/eat` and `/fun` handlers (index.js:142-173, 308-339). They are single `find`/`findById` calls with no logic of their own.
- MongoDB's matching of a whole-array value against an equality clause. Equality on a string field is `v in values`, which is what the generated filters use.
