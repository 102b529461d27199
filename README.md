# Zooper client-side lists, modelled in Dafny

Zooper is a browser front-end for browsing a movie and TV catalog. This
project models the four pieces of it that keep and transform lists of
titles:

- the **favorites ledger** (`useFavorites`). It holds a list of favorite
  records keyed by `(id, type)`, most recent first. It mirrors that list
  into `localStorage` under `zooper_favorites`;
- the **Continue Watching rail**. It loads a list from `localStorage` under
  `zooper_continue_watching`, removes items by id and writes the result
  back. It also builds a play route and a "Resume from N m" caption for
  each item;
- the **hero banner carousel**. It keeps only titles that have a backdrop
  and an overview, advances a cyclic index on a timer, and rewinds that
  index to 0 when the number of such titles changes;
- the **title row**. It makes the "View More" decision (listing page plus
  genre-filter update), chooses between page-supplied and fetched titles,
  picks a render branch (skeleton, hidden or cards), and renders one card
  per title with a poster.

The modules follow the source files. `Favorites` (favorites.dfy),
`ContinueWatching`, `HeroBanner` and `Row` each model one component. They
share these helpers:

- `JsValues`: missing properties as `Option`, JavaScript truthiness, and
  `||`;
- `Seqs`: `Array.prototype.filter` and its laws;
- `Decimal`: how a template literal prints an integer, plus its inverse;
- `Storage`: `localStorage` seen through `JSON.stringify`/`JSON.parse`;
- `Tmdb`: the catalog's title record.

State that the components change in place is modelled as classes:

- `FavoritesHook`: the favorites list and the store;
- `ContinueWatchingRow`: the items and the store;
- `Carousel`: the props and `currentIndex`.

Each method's `ensures` gives the new state as a function of the old one.
The properties are proved as lemmas about those functions.

Modelling choices:

- A stored string is abstracted by what `JSON.parse` makes of it.
  `Serialized(items)` is text that parses to a list of records.
  `Malformed(text)` is text that makes `JSON.parse` throw.
- JavaScript truthiness is written out. A string property is truthy when it
  is present and non-empty. A number is truthy when it is present and
  non-zero.
- The clock reading stored in `addedAt` is a parameter.
- The data hook's result in `Row` is a parameter.
- Navigation is a returned route string. `setGenre` is a returned
  `GenreUpdate`.

Some members carry no `ensures` and therefore have no row below:

- `Favorites.SameKey`;
- `ContinueWatching.PlayRoute`, `ContinueWatching.ResumeLabel` and
  `ContinueWatching.MatchPlayerRoute` (the router's match of
  `/player/:type?/:playerId`, src/routes/Allroutes.jsx:21);
- `HeroBanner.Ticks`;
- `Row.ApplyGenre`, which applies a `GenreUpdate` to the genre context's
  state (src/context/genres.context.jsx:9);
- `Row.RowMediaType` (the `mediaType = "movie"` default, src/components/Row.jsx:9),
  `Row.RowFetch` (the hook call, :10-12) and `Row.DisplayMovies`
  (`movies || fetchedMovies`, :14), specified through `Row.View` and
  `Row.PageTitlesIgnoreFetchState`;
- `Row.HookAsWritten` (the as-written hook result, src/hooks/MovieData.js:4-19)
  and `Row.HookCorrected` (the corrected one), specified through
  `Row.GenreRowHiddenAsWritten` and `Row.GenreRowShowsFetched`.

Each of them is specified by the lemmas about it that are listed below.

## Model

| member | source | states |
|---|---|---|
| `JsValues.Or` | src/hooks/useFavorites.js:40 | `a \|\| b` is `a` when `a` is truthy and `b` otherwise; the result is truthy iff either operand is |
| `JsValues.OrDefault` | src/hooks/useFavorites.js:39 | `a \|\| 'literal'` is `a`'s string when truthy, else the literal; never empty when the literal is not |
| `Seqs.Filter` | src/hooks/useFavorites.js:54 | the result holds exactly the elements satisfying the predicate, each as often as in the input, and no longer than the input |
| `Seqs.FilterAppend` | src/hooks/useFavorites.js:54 | filtering distributes over concatenation, so kept elements keep their relative order |
| `Seqs.FilterKeepsAll` | src/hooks/useFavorites.js:54 | a filter every element passes returns its input unchanged |
| `Seqs.FilterIdempotent` | src/hooks/useFavorites.js:94 | filtering twice with one predicate equals filtering once |
| `Seqs.FilterCommute` | src/hooks/useFavorites.js:94 | two successive filters can be swapped |
| `Decimal.NatToString` | src/components/ContinueWatchingRow.jsx:105 | a natural number prints as a non-empty run of digits with no leading zero |
| `Decimal.IntToString` | src/components/ContinueWatchingRow.jsx:36 | an integer prints as digits with a leading `-` exactly when it is negative |
| `Decimal.DigitsValueOfNatToString` | src/components/ContinueWatchingRow.jsx:105 | reading the printed digits of `n` back gives `n` |
| `Decimal.ParseIntOfIntToString` | src/components/ContinueWatchingRow.jsx:36 | parsing the printed form of any integer gives that integer back |
| `Storage.Stringify` | src/hooks/useFavorites.js:26 | `JSON.parse(JSON.stringify(list))` is the list, and the stored text is never empty |
| `Favorites.MakeFav` | src/hooks/useFavorites.js:37-47 | the new record's `type` is `media_type` or `'movie'`, so never empty; `title` is `title` or else `name`; `releaseDate` is `release_date` or else `first_air_date`; the other fields copied, `addedAt` the given clock reading |
| `Favorites.Contains` | src/hooks/useFavorites.js:69 | true iff some entry matches both `id` and `type` |
| `Favorites.Find` | src/hooks/useFavorites.js:50 | finds an entry iff one matches the key, and then returns the first such entry |
| `Favorites.Without` | src/hooks/useFavorites.js:54 | no entry with the key remains; exactly the entries with other keys remain |
| `Favorites.WithoutAppend` | src/hooks/useFavorites.js:54 | removal distributes over concatenation, so the entries that stay keep their relative order |
| `Favorites.Toggle` | src/hooks/useFavorites.js:49-58 | with the key absent the result is the new record prepended to the old list; with it present, every entry with the key is removed; the key is present afterwards iff it was absent before |
| `Favorites.NoDupKeysPairwise` | src/hooks/useFavorites.js:50-57 | "no duplicate key" as used in the model holds iff no two positions carry the same `(id, type)` |
| `Favorites.WithoutKeepsNoDupKeys` | src/hooks/useFavorites.js:93-95 | removing a key from a list with unique keys leaves unique keys |
| `Favorites.ToggleKeepsNoDupKeys` | src/hooks/useFavorites.js:50-57 | toggling a list with unique keys leaves unique keys |
| `Favorites.RemoveAbsentIsNoop` | src/hooks/useFavorites.js:94 | removing a key that is absent leaves the list unchanged |
| `Favorites.RemoveIdempotent` | src/hooks/useFavorites.js:93-95 | removing a key twice equals removing it once |
| `Favorites.RemoveKeepsOtherKeys` | src/hooks/useFavorites.js:93-95 | after removing one key, the entries of any other key are exactly the old ones, in the old order |
| `Favorites.RemoveKeepsOtherMembership` | src/hooks/useFavorites.js:93-95 | removing one key does not change whether any other key is present |
| `Favorites.ToggleTwiceRestores` | src/hooks/useFavorites.js:49-58 | toggling the same `(id, type)` twice, starting from a list without it, restores the list exactly, whatever the second record's other fields |
| `Favorites.LoadFavorites` | src/hooks/useFavorites.js:11-21 | a missing key or an unparseable payload loads as the empty list; a parseable one loads as its list |
| `Favorites.SaveFavorites` | src/hooks/useFavorites.js:24-30 | the key is present iff the list is non-empty, and then holds the serialised list; no other key changes |
| `Favorites.SaveThenLoad` | src/hooks/useFavorites.js:12-30 | for every list, including the empty one, loading after the save rule gives the list back |
| `Favorites.FavoritesHook.constructor` | src/hooks/useFavorites.js:8-30 | mounting loads the list, then applies the save rule to it, leaving the store in step with the list |
| `Favorites.FavoritesHook.SaveEffect` | src/hooks/useFavorites.js:24-30 | the store becomes the save rule applied to the current list |
| `Favorites.FavoritesHook.IsFavorite` | src/hooks/useFavorites.js:68-70 | true iff some held entry matches both `id` and `type` |
| `Favorites.FavoritesHook.GetAllFavorites` | src/hooks/useFavorites.js:76-78 | returns the held list; while the store is in step, that is what a reload would load |
| `Favorites.FavoritesHook.ToggleFavorite` | src/hooks/useFavorites.js:36-60 | the list becomes the toggled list; the store follows by the save rule; the key flips between present and absent; unique keys stay unique |
| `Favorites.FavoritesHook.ClearFavorites` | src/hooks/useFavorites.js:83-86 | the list is empty and the key is gone from the store; other keys are untouched |
| `Favorites.FavoritesHook.RemoveFromFavorites` | src/hooks/useFavorites.js:93-95 | the list loses every entry with the key; the store follows by the save rule; the key is no longer a favorite; unique keys stay unique |
| `ContinueWatching.LoadOrKeep` | src/components/ContinueWatchingRow.jsx:11-20 | a parseable stored payload replaces the items; a missing key or a parse failure leaves them unchanged |
| `ContinueWatching.RemoveId` | src/components/ContinueWatchingRow.jsx:30 | every item with the id is dropped whatever its `media_type`; every other item is kept with its multiplicity |
| `ContinueWatching.RemoveIdKeepsOrder` | src/components/ContinueWatchingRow.jsx:30 | removal distributes over concatenation, so the other items keep their order |
| `ContinueWatching.RemoveIdIdempotent` | src/components/ContinueWatchingRow.jsx:30 | removing an id a second time changes nothing |
| `ContinueWatching.RemoveThenReload` | src/components/ContinueWatchingRow.jsx:12-32 | what the remove handler writes, even an empty list, the loader reads back |
| `ContinueWatching.PlayKind` | src/components/ContinueWatchingRow.jsx:36 | the route's kind segment is `media_type`, or `'movie'` when that is missing or empty |
| `ContinueWatching.PlayRouteMatches` | src/components/ContinueWatchingRow.jsx:36 | the play route `/player/{kind}/{id}` matches the player route, with the kind as `type` and a `playerId` that parses back to the item's id |
| `ContinueWatching.ResumeMinutes` | src/components/ContinueWatchingRow.jsx:105 | the minutes `m` satisfy `60m <= timestamp < 60(m+1)`, i.e. `Math.floor(timestamp / 60)` |
| `ContinueWatching.ResumeLabelShowsMinutes` | src/components/ContinueWatchingRow.jsx:105 | with a zero or missing timestamp the caption is `Resume`; otherwise it is `Resume from ` + digits + `m`, where the digits parse back to the whole minutes |
| `ContinueWatching.CardOf` | src/components/ContinueWatchingRow.jsx:68-106 | a card's route and caption are the item's; remove acts on its id; title is `title \|\| name`; image is `backdrop_path \|\| poster_path` |
| `ContinueWatching.Render` | src/components/ContinueWatchingRow.jsx:49-108 | nothing is rendered iff the list is empty; otherwise one card per item, in order |
| `ContinueWatching.ContinueWatchingRow.constructor` | src/components/ContinueWatchingRow.jsx:6-22 | mounting starts from the empty list and runs the loader once |
| `ContinueWatching.ContinueWatchingRow.LoadItems` | src/components/ContinueWatchingRow.jsx:11-20 | the items become the load-or-keep result for the current store |
| `ContinueWatching.ContinueWatchingRow.HandleRemove` | src/components/ContinueWatchingRow.jsx:28-33 | the items lose the id; the filtered list is always written under the key, even when empty, and reloads as itself |
| `ContinueWatching.ContinueWatchingRow.View` | src/components/ContinueWatchingRow.jsx:49 | the rail renders nothing exactly when there are no items |
| `HeroBanner.Featured` | src/components/HeroBanner.jsx:5-7 | the featured titles are exactly the input's titles with a non-empty `backdrop_path` and `overview` |
| `HeroBanner.FeaturedKeepsOrder` | src/components/HeroBanner.jsx:5-7 | the featured filter keeps input order |
| `HeroBanner.Step` | src/components/HeroBanner.jsx:19-21 | a tick wraps the last index to 0 and moves any other in-range index one forward, so `0 <= i < len` is preserved |
| `HeroBanner.TicksCompose` | src/components/HeroBanner.jsx:18-22 | `a + b` ticks equal `a` ticks followed by `b` ticks |
| `HeroBanner.TicksCount` | src/components/HeroBanner.jsx:19-21 | below the last index, `k` ticks move the index `k` places forward |
| `HeroBanner.CycleVisitsEachOnce` | src/components/HeroBanner.jsx:18-22 | from 0, the first `len` ticks visit the indices 0 to `len - 1` once each, in order, and tick `len` is back at 0 |
| `HeroBanner.CyclePeriodic` | src/components/HeroBanner.jsx:18-22 | the index sequence from 0 repeats with period `len` |
| `HeroBanner.Title` | src/components/HeroBanner.jsx:43 | the displayed title is `title` if truthy, else `name` |
| `HeroBanner.Year` | src/components/HeroBanner.jsx:47 | the year is the first (at most) four characters of `release_date`, and missing without one, even for a series with a `first_air_date` |
| `HeroBanner.RenderAt` | src/components/HeroBanner.jsx:27-56 | nothing is rendered iff the featured list is empty; an index in range shows that title's id, backdrop, title, year and overview; an index out of range throws |
| `HeroBanner.StaleFirstPaint` | src/components/HeroBanner.jsx:9-29 | as written: the first paint after new props reads the old index, and throws whenever the new list is shorter than that index |
| `HeroBanner.StaleFirstPaintCrashes` | src/components/HeroBanner.jsx:11-29 | from a reachable state (0 followed by ticks), a shrinking featured list makes the as-written first paint throw |
| `HeroBanner.FirstPaint` | src/components/HeroBanner.jsx:11-29 | the corrected first paint: after a change in the number of featured titles it is the render of index 0; otherwise the render of the old index |
| `HeroBanner.FirstPaintNeverCrashes` | src/components/HeroBanner.jsx:11-29 | from any state keeping the index invariant, the corrected first paint never throws, and it shows index 0 after a length change |
| `HeroBanner.Carousel.constructor` | src/components/HeroBanner.jsx:9-13 | mounting starts at index 0, within the invariant |
| `HeroBanner.Carousel.Tick` | src/components/HeroBanner.jsx:15-25 | with no featured titles nothing steps; otherwise the index takes one step; the index invariant is kept |
| `HeroBanner.Carousel.ReceiveProps` | src/components/HeroBanner.jsx:4-29 | the index is rewound to 0 exactly when the featured count changes, and is kept otherwise; the first paint is the corrected one and equals the resulting view |
| `HeroBanner.Carousel.View` | src/components/HeroBanner.jsx:27-29 | the banner is hidden iff there are no featured titles, and never throws while the invariant holds |
| `Row.HandleViewMore` | src/components/Row.jsx:27-42 | TV rows go to `/TV-Shows`, others to `/films`; a truthy `genreId` is always set; without one TV leaves the genre alone and films clear it |
| `Row.ViewMoreGenreAsymmetry` | src/components/Row.jsx:29-41 | after "View More" a film row's genre is `genreId` or `null` whatever it was before; a TV row without a genre keeps the previous one |
| `Row.CardOf` | src/components/Row.jsx:94-98 | a card keeps the title's id and poster; its `media_type` is the title's own if truthy, else the row's |
| `Row.CardsOf` | src/components/Row.jsx:91-102 | one card per title, position by position |
| `Row.PosterCards` | src/components/Row.jsx:91-102 | every title with a poster gets a card, every card comes from such a title, and every card has a poster |
| `Row.PosterCardsKeepOrder` | src/components/Row.jsx:91-102 | card rendering distributes over concatenation, so cards follow input order |
| `Row.View` | src/components/Row.jsx:44-60 | the skeleton shows iff loading without page titles; otherwise the row hides on an error without page titles or on a missing or empty list; otherwise it shows the poster cards of the displayed titles |
| `Row.PageTitlesIgnoreFetchState` | src/components/Row.jsx:44-60 | a row with non-empty page titles renders their poster cards whatever the fetch state |
| `Row.GenreRowHiddenAsWritten` | src/components/Row.jsx:10-60 | as written: a genre row without page titles is hidden whatever was fetched |
| `Row.GenreRowShowsFetched` | src/components/Row.jsx:44-60 | with the corrected hook, a genre row shows the skeleton while loading and, once loaded, the poster cards of what was fetched |

## Left out

- The JSON text itself. The model tracks only whether a stored string parses and to which list. A payload that parses to something other than a list of records is not modelled. In the favorites hook, `null` throws at `favorites.length` in the save effect (src/hooks/useFavorites.js:26). A number, boolean or object has no `length`, so `undefined > 0` is false and the save effect quietly removes the key; the `TypeError` comes later, at `favorites.some` in `isFavorite` (src/hooks/useFavorites.js:69). In ContinueWatchingRow such a payload passes the `items.length === 0` guard (src/components/ContinueWatchingRow.jsx:49) and throws at `items.map` (:68).
- Row.RowMediaType: `None` stands for an `undefined` prop only. A JavaScript default parameter (src/components/Row.jsx:9) does not replace `null`, so `mediaType={null}` would stay `null`; no caller in the repository passes `null`, and that case is not modelled.
- Shared storage. Each class has its own view of `localStorage`. The two keys differ, so the lists never interfere.
- React's scheduling. On mount, the favorites save effect first runs on the initial empty list, removing the key, and then runs again on the loaded list. The model keeps only the final state. It also ignores StrictMode's double-run of mount effects, batching, and synchronisation between several hook instances.
- The `storage` event listener in ContinueWatchingRow.jsx:24-25. `LoadItems` is the method it would call. What fires it, and when, is not modelled.
- Timing. The 5-second `setInterval`/`clearInterval` in HeroBanner.jsx:18-24 is not modelled; `Tick` is one firing. The random runtime and language counts at HeroBanner.jsx:49-51 are left out.
- Browser plumbing. `e.stopPropagation()`, scrolling, image URLs, CSS classes, the navigation `state` payload and the "Watch Now" link are not modelled.
- Number formats. Media ids, genre ids and timestamps are exact integers or reals. `typeof` mismatches under `===` (a string id against a number id), NaN and infinities are not modelled. The fetched `vote_average` is copied as an opaque `real`.
- Decimal.IntToString: does not model JavaScript's exponent notation for magnitudes of 10^21 and above.
- ContinueWatching.MatchPlayerRoute: a simplified router match, without trailing slashes or percent-decoding.
- The data hooks, the HTTP client, the video player wrapper, and the pages that only compose and render (home, films, TV shows, search, favorites, detail modal, navbar, footer, genres, cards) are outside the named core.
- The mismatch in `useMovieData`: it ignores the `genreId` and `mediaType` arguments `Row` passes (src/hooks/MovieData.js:4) and always fetches the generic discover list. It is noted here and not modelled.

## Findings

| source | as written | input that shows it | evidently intended | confidence | as-written member | corrected member |
|---|---|---|---|---|---|---|
| src/components/HeroBanner.jsx:11-29 | the index is rewound by an effect, which runs only after the render that already reads `filteredMovies[currentIndex]` with the old index | six featured titles, five timer ticks (index 5), then new `movies` props with three featured titles: the render reads index 5 of a three-element list and throws a `TypeError` on `movie.backdrop_path` | the first paint for a list of a new length shows index 0 | medium, not executed | `HeroBanner.StaleFirstPaintCrashes` | `HeroBanner.FirstPaintNeverCrashes` |
| src/components/Row.jsx:10-14 | `const { data, loading, error } = useMovieData(...)`, but the hook returns the bare list (src/hooks/MovieData.js:19), so all three are `undefined` | any genre row without `movies`, e.g. the genre rows of src/components/Home.jsx:534-540: `displayMovies` is `undefined` and the row returns `null` whatever was fetched | a genre row shows its fetched titles, with a skeleton while they load | high, not executed | `Row.GenreRowHiddenAsWritten` | `Row.GenreRowShowsFetched` |
