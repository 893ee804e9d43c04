# A verified model of the movie browser's core logic

The application is a Next.js movie browser. It lists movies from The Movie
Database (TMDB), keeps favorites and named collections, and stores them
either in the browser's `localStorage` or, for signed-in users, behind two
HTTP routes over a relational store. This project models in Dafny the parts
of it that carry decisions, and proves what those parts promise:

- **`Storage`**: the browser-local store `MovieStorage`. It is a class with one
  sequence field per `localStorage` key, plus a constant `onClient` for the
  "running in a browser" test. Every mutating method states its new state as
  a pure function of the old one. Those functions carry the invariants: no
  duplicate favorites, no duplicate movie in a collection, only the targeted
  collection changes, and toggling twice restores membership.
- **`FavoritesRoute` and `CollectionsRoute`**: the `GET`/`POST`/`DELETE`
  handlers. Each is a pure function of the session lookup's outcome and the
  store query's outcome, plus the parsed body or query parameter for `POST`
  and `DELETE`. A throw is one of those outcomes: a session lookup or store
  query that throws, or a body that does not parse. The handler returns the
  store query it issued and the status and JSON body of its reply.
- **`Tmdb`**: image URLs, request URLs, the demo-mode data and the fallback
  to it when a request fails.
- **`MovieCard`**: the runtime label and the genre-badge truncation rule.
- **`HomePage`**: a class for the section, genre and search state, and the
  loader that each change starts. Pure functions give the genre-id
  resolution and the page heading.
- **`CollectionSelector`**: a class for the "add to collection" dialog's
  collections, selection set and new-name box.
- **`Js`, `Types` and `Http`**: the JavaScript semantics the above rely on
  (truthiness, property lookup, `trim` with the ECMAScript whitespace set,
  `${n}` for integers), the shared records, and HTTP replies.

The service calls are inputs to the model. This covers the session lookup,
store queries, `fetch`, the collection service, generated ids and the
current time. Thrown exceptions are modelled wherever the code catches them.

Exporting and then importing a collection yields a new collection with an
empty movie list: the import passes only the name and the description to
`createCollection` (`with-supabase-app/lib/storage.ts:147-150`), and the
exported movie ids are never added. `Storage.ExportThenImport` proves it.

## Model

| member | source | states |
|---|---|---|
| Js.Prop | with-supabase-app/app/api/favorites/route.ts:32 | A property read gives a value exactly when the value is an object with that key, and then gives that key's value. |
| Js.Truthy | with-supabase-app/app/api/favorites/route.ts:34 | The falsy values are exactly `undefined`, `null`, `false`, `0` and `""`. |
| Js.Trim | with-supabase-app/app/api/collections/route.ts:47 | `trim` cuts only whitespace, from both ends. The result starts and ends with non-whitespace. It is empty exactly when the input is all whitespace. |
| Js.TrimIdempotent | with-supabase-app/app/api/collections/route.ts:62 | Trimming twice is trimming once, so the stored name is already trimmed. |
| Js.NatToString | with-supabase-app/components/movie-card.tsx:43 | `${n}` of a natural number is a non-empty digit string with no leading zero. |
| Js.IntToString | with-supabase-app/components/movie-card.tsx:43 | `${n}` starts with `-` exactly for a negative `n`. The digits that follow read back as `n`, or as `-n` when it is negative. |
| Js.NatToStringRoundTrip | with-supabase-app/components/movie-card.tsx:43 | Reading the digits of `${n}` gives `n` back. |
| Js.NatToStringInjective | with-supabase-app/lib/tmdb.ts:92 | Distinct numbers render as distinct strings. |
| Http.MovieIds | with-supabase-app/app/api/favorites/route.ts:23 | Mapping rows to `movie_id` keeps the length and takes each row's id in order. |
| Storage.AddIfAbsent | with-supabase-app/lib/storage.ts:19-20 | After the add, the id is present and the membership of other ids is unchanged. A present id leaves the list as it was. An absent one is appended at the end. A duplicate-free list stays duplicate-free. |
| Storage.RemoveAll | with-supabase-app/lib/storage.ts:29 | The filter removes every occurrence of the id and leaves every other element's count unchanged. A duplicate-free list stays duplicate-free. |
| Storage.RemoveAllAbsent | with-supabase-app/lib/storage.ts:29 | Removing an id that is not there changes nothing. |
| Storage.RemoveAllAppend | with-supabase-app/lib/storage.ts:29 | Removal distributes over concatenation, so the ids that stay keep their order. |
| Storage.ToggledFavorites | with-supabase-app/lib/storage.ts:37-45 | A toggle flips the id's membership, keeps every other id's membership and keeps the list duplicate-free. |
| Storage.ToggleTwiceMembership | with-supabase-app/lib/storage.ts:37-45 | Two toggles restore every id's membership. |
| Storage.ToggleTwiceAbsent | with-supabase-app/lib/storage.ts:37-45 | Two toggles of an absent id restore the list exactly. |
| Storage.ToggleTwicePresent | with-supabase-app/lib/storage.ts:37-45 | Two toggles of a present id move it to the end. |
| Storage.FindIndex | with-supabase-app/lib/storage.ts:84 | `findIndex` gives the first position with the id, or -1 when no position has it. |
| Storage.Find | with-supabase-app/lib/storage.ts:104 | `find` gives the first collection of the list with that id, or nothing exactly when none has it. |
| Storage.Merge | with-supabase-app/lib/storage.ts:87 | A spread merge changes the record exactly when the update supplies some field with a value other than the record's. |
| Storage.MergeFields | with-supabase-app/lib/storage.ts:87 | Under a spread merge, each of the six fields takes the update's value when supplied and keeps its own otherwise. An empty update changes nothing. |
| Storage.MergeCompose | with-supabase-app/lib/storage.ts:87 | Two merges in turn equal one merge of the combined update. Merging the same update twice equals merging it once. |
| Storage.UpdateFirst | with-supabase-app/lib/storage.ts:83-89 | Only the first collection with the id is merged, and every other position is unchanged. An unknown id changes nothing. |
| Storage.DeleteAll | with-supabase-app/lib/storage.ts:96 | The survivors are exactly the collections with another id. Duplicate-free movie lists stay so. |
| Storage.DeleteAllAbsent | with-supabase-app/lib/storage.ts:96 | Deleting an unknown id changes nothing. |
| Storage.DeleteAllAppend | with-supabase-app/lib/storage.ts:96 | Deletion distributes over concatenation, so the survivors keep their order. |
| Storage.AddMovieTo | with-supabase-app/lib/storage.ts:103-109 | Only the first collection with the id changes, and it gains the movie if absent. An unknown id changes nothing. No movie list gains a duplicate. |
| Storage.RemoveMovieFrom | with-supabase-app/lib/storage.ts:115-121 | Only the first collection with the id changes, and it loses every occurrence of the movie. Others are unchanged. |
| Storage.UpdateFirstKeepsMoviesDistinct | with-supabase-app/lib/storage.ts:80-90 | An update that supplies no movie list with a duplicate keeps every movie list duplicate-free. |
| Storage.UpdateFirstCanBreakDistinct | with-supabase-app/lib/storage.ts:87 | An update supplying `[m, m]` does break that invariant. The update path does not check it. |
| Storage.MovieStorage.GetFavorites | with-supabase-app/lib/storage.ts:8-13 | Reads give the stored list on the client and `[]` off it. |
| Storage.MovieStorage.IsFavorite | with-supabase-app/lib/storage.ts:33-35 | An id is a favorite exactly when on the client and in the stored list. |
| Storage.MovieStorage.AddToFavorites | with-supabase-app/lib/storage.ts:15-23 | Afterwards the id is a favorite. A present id leaves the list unchanged. Duplicate-freedom is kept. Off the client the call does nothing. |
| Storage.MovieStorage.RemoveFromFavorites | with-supabase-app/lib/storage.ts:25-31 | Afterwards the id is not a favorite, and no other id's status changes. |
| Storage.MovieStorage.ToggleFavorite | with-supabase-app/lib/storage.ts:37-45 | It returns the negation of the prior status. On the client that is the new status. Off the client it returns true and stores nothing. No other id changes. |
| Storage.MovieStorage.GetCollections | with-supabase-app/lib/storage.ts:48-59 | Reads give the stored collections on the client and `[]` off it. |
| Storage.MovieStorage.CreateCollection | with-supabase-app/lib/storage.ts:61-78 | Off the client it throws "Cannot create collection on server" and stores nothing. On the client it appends exactly one collection at the end, with the given name and description, no movies and `isPublic` false. |
| Storage.MovieStorage.UpdateCollection | with-supabase-app/lib/storage.ts:80-90 | The new list is the merge into the first match only. The movie-list invariant is kept unless the update supplies a duplicate. |
| Storage.MovieStorage.DeleteCollection | with-supabase-app/lib/storage.ts:92-98 | Every collection with the id is dropped, and the invariant is kept. |
| Storage.MovieStorage.AddMovieToCollection | with-supabase-app/lib/storage.ts:100-110 | The new list follows the add-if-absent rule for the first match, and the invariant is kept. |
| Storage.MovieStorage.RemoveMovieFromCollection | with-supabase-app/lib/storage.ts:112-122 | The new list follows the remove-all rule for the first match, and the invariant is kept. |
| Storage.MovieStorage.GetCollection | with-supabase-app/lib/storage.ts:124-127 | It gives the first collection with the id, or null exactly when off the client or when none has it. |
| Storage.MovieStorage.ExportCollection | with-supabase-app/lib/storage.ts:130-142 | An unknown id gives null. Otherwise the export record holds the collection's name, description, movies and creation time. |
| Storage.MovieStorage.ImportCollection | with-supabase-app/lib/storage.ts:144-155 | A decoding failure, or running off the client, gives null with nothing stored. Otherwise the new collection, with the given id, the name suffixed " (Imported)", the same description, no movies, the current time and `isPublic` false, is appended. |
| Storage.ExportThenImport | with-supabase-app/lib/storage.ts:130-155 | In this scenario, exporting a known collection and importing the result gives a collection with the suffixed name, the same description and an empty movie list. |
| FavoritesRoute.Get | with-supabase-app/app/api/favorites/route.ts:4-28 | 401 "Unauthorized" exactly on a failed session. A store error gives 500 with its message, and a throw gives 500 "Internal server error". Otherwise the reply holds each row's `movie_id` in row order, and the query is for the caller's user id. |
| FavoritesRoute.Post | with-supabase-app/app/api/favorites/route.ts:30-62 | A malformed or null body gives 500. A `movieId` that is missing, 0 or not a number gives 400 with no query. After a valid body, a failed session gives 401 "Unauthorized", exactly. A throwing session lookup or insert gives 500 "Internal server error". The insert carries the caller's id and the given number. Code 23505 gives 409 "Movie already in favorites", and any other store error gives 500 with its message. Success returns `{success: true, favorite}`. |
| FavoritesRoute.Delete | with-supabase-app/app/api/favorites/route.ts:64-94 | A missing or empty `movieId` gives 400 before the session check. A failed session gives 401 "Unauthorized". A store error gives 500 with its message, and a throw gives 500 "Internal server error". Success returns `{success: true}`. Statuses are limited to 200, 400, 401 and 500. |
| FavoritesRoute.ValidMovieId | with-supabase-app/app/api/favorites/route.ts:34 | `movieId` passes exactly when it is present, a number and not zero. |
| FavoritesRoute.PostValidatesFirst | with-supabase-app/app/api/favorites/route.ts:34-43 | When the body is invalid, the reply does not depend on the session or on the store. |
| FavoritesRoute.PostRejectsBadIds | with-supabase-app/app/api/favorites/route.ts:34-36 | `movieId` 0, `"42"`, a missing key and a non-object body each get 400. |
| FavoritesRoute.PostTwiceConflicts | with-supabase-app/app/api/favorites/route.ts:45-58 | A first insert succeeds with the caller's id. A repeat that hits the unique key gets 409. |
| CollectionsRoute.ToJson | with-supabase-app/app/api/collections/route.ts:26-35 | The camelCase copy of a row: `movies` is its rows' `movie_id`s, and `movieCount` is their number. |
| CollectionsRoute.AllToJson | with-supabase-app/app/api/collections/route.ts:26-35 | There is one reshaped collection per row, in row order. |
| CollectionsRoute.ValidName | with-supabase-app/app/api/collections/route.ts:47 | `name` passes exactly when it is a string that is not all whitespace. |
| CollectionsRoute.NormalizeDescription | with-supabase-app/app/api/collections/route.ts:63 | Absent or null stays null. A string is trimmed, and a blank result becomes null. Any other value throws. |
| CollectionsRoute.IsPublicOf | with-supabase-app/app/api/collections/route.ts:45 | `isPublic` defaults to false only when the key is absent. |
| CollectionsRoute.Get | with-supabase-app/app/api/collections/route.ts:4-41 | 401 "Unauthorized" exactly on a failed session. A store error gives 500 with its message, and a throw gives 500 "Internal server error". Otherwise the reply is the reshaped rows, from a query for the caller's collections. |
| CollectionsRoute.Post | with-supabase-app/app/api/collections/route.ts:43-88 | A name that is missing, not a string or blank gives 400 before the session check. A failed session gives 401 "Unauthorized". Otherwise the insert has the caller's id, the trimmed non-empty name, the normalized description and the `isPublic` value, and success returns the row with `movies = []` and `movieCount = 0`. A store error gives 500 with its message. A throwing session lookup or insert, or a `description` that is neither a string nor null, gives 500 "Internal server error". |
| CollectionsRoute.PostValidatesFirst | with-supabase-app/app/api/collections/route.ts:47-56 | When the name is invalid, the reply does not depend on the session or on the store. |
| CollectionsRoute.BlankNameRejected | with-supabase-app/app/api/collections/route.ts:47-49 | A name made only of whitespace gets 400 and nothing is inserted. |
| CollectionsRoute.CreatedMatchesEmptyListing | with-supabase-app/app/api/collections/route.ts:73-84 | A created collection is reported exactly as `GET` would report the same row with no movie rows. |
| Tmdb.ApiKey | with-supabase-app/lib/tmdb.ts:7 | An unset or empty key falls back to `demo_key`. Otherwise the configured key is used. The key is never empty. |
| Tmdb.ImageUrlText | with-supabase-app/lib/tmdb.ts:147 | The image URL is the image base and `/`, then the size, then the path. |
| Tmdb.ImageSrc.Text | with-supabase-app/lib/tmdb.ts:146-147 | The `src` text is the placeholder data URI for the placeholder and for no server image. Otherwise it is the image URL. |
| Tmdb.GetImageUrl | with-supabase-app/lib/tmdb.ts:145-148 | A null or empty path gives the placeholder data URI. Otherwise the URL is the image base, `/`, the size and the path. The default size is `w500`. |
| Tmdb.GetPosterUrl | with-supabase-app/lib/tmdb.ts:150-152 | Posters use size `w500`. |
| Tmdb.GetBackdropUrl | with-supabase-app/lib/tmdb.ts:154-156 | Backdrops use size `w1280`. |
| Tmdb.GetProfileUrl | with-supabase-app/lib/tmdb.ts:158-160 | Profiles use size `w185`. |
| Tmdb.PlaceholderIffNoPath | with-supabase-app/lib/tmdb.ts:145-148 | The placeholder comes back exactly when there is no path, so no image URL equals it. |
| Tmdb.ImageUrlRecoversPath | with-supabase-app/lib/tmdb.ts:147 | The base, size and path can be read back from an image URL. |
| Tmdb.QueryUrl | with-supabase-app/lib/tmdb.ts:20 | The URL is the base and endpoint, then `&` if the endpoint holds a `?` and `?` otherwise, then `api_key=` and the key. |
| Tmdb.RequestUrl | with-supabase-app/lib/tmdb.ts:20 | The request URL starts with the API base followed by the endpoint, and ends with the key. |
| Tmdb.QueryUrlMarks | with-supabase-app/lib/tmdb.ts:20 | With a base and key free of `?`, the URL has one `?` when the endpoint had none, and as many as the endpoint otherwise. |
| Tmdb.RequestUrlQueryMarks | with-supabase-app/lib/tmdb.ts:3-20 | On the real base URL, the key never opens a second query string. |
| Tmdb.Includes | with-supabase-app/lib/tmdb.ts:61 | `includes` needs the string to be at least as long as the part sought, and holds when the string starts with that part. |
| Tmdb.IncludesIff | with-supabase-app/lib/tmdb.ts:61 | `includes` holds exactly when the part sought occurs at some position of the string. |
| Tmdb.DemoTitle | with-supabase-app/lib/tmdb.ts:92 | A demo title is "Demo Movie " followed by digits that read back as the movie's number. |
| Tmdb.GetMockData | with-supabase-app/lib/tmdb.ts:42-97 | A genre-list endpoint gives the 19 demo genres. Any other endpoint gives page 1 of 1 with 20 results, where result `i` is the demo movie with id `i+1` and title "Demo Movie `i+1`". |
| Tmdb.MockGenresDistinct | with-supabase-app/lib/tmdb.ts:63-83 | The demo genre list has 19 genres with distinct ids. |
| Tmdb.MockPageDistinct | with-supabase-app/lib/tmdb.ts:89-93 | No two demo results share an id or a title. |
| Tmdb.FetchFromTmdb | with-supabase-app/lib/tmdb.ts:13-40 | Demo mode fetches nothing and serves demo data. Otherwise the built request URL is fetched. A 2xx response with a parsed body is passed through, and any other outcome falls back to demo data. |
| Tmdb.DemoGenres | with-supabase-app/lib/tmdb.ts:7-84 | With no key configured, asking for the genre list fetches nothing and yields the demo genres. |
| MovieCard.JsRem60 | with-supabase-app/components/movie-card.tsx:42 | JavaScript's `% 60` has the sign of the dividend, is smaller than 60 in magnitude, and differs from the dividend by a multiple of 60. |
| MovieCard.Hours | with-supabase-app/components/movie-card.tsx:41 | `Math.floor(m / 60)` is the largest `h` with `60h <= m`. |
| MovieCard.RuntimeSplit | with-supabase-app/components/movie-card.tsx:40-42 | For `m >= 0`, `h*60 + r == m` and `0 <= r < 60`. |
| MovieCard.FormatRuntime | with-supabase-app/components/movie-card.tsx:40-44 | The label is `"{h}h {r}m"` when `h > 0` and `"{r}m"` otherwise. |
| MovieCard.RuntimeLabel | with-supabase-app/components/movie-card.tsx:103-108 | A non-zero runtime shows its formatted line. A runtime of 0 shows the bare text "0", because the `&&` expression yields the number itself. |
| MovieCard.FormatRuntimeRoundTrip | with-supabase-app/components/movie-card.tsx:40-44 | Every non-negative runtime's label reads back as that runtime. |
| MovieCard.FormatRuntimeInjective | with-supabase-app/components/movie-card.tsx:40-44 | Distinct non-negative runtimes get distinct labels. |
| MovieCard.GenreBadges | with-supabase-app/components/movie-card.tsx:112-127 | The block is shown exactly when `showGenres` is set and the list is non-empty. It holds the first `min(2, n)` genres. A `+N` badge appears exactly when `n > 2`, with `N = n - 2`. |
| MovieCard.BadgesAccountForAll | with-supabase-app/components/movie-card.tsx:112-127 | The shown badges plus `N` count each genre once: the shown ones followed by the rest are the whole list. |
| HomePage.Dispatch | with-supabase-app/app/page.tsx:30-40 | Nothing loads until genres are loaded. Then a non-empty query loads by search. Otherwise a truthy genre loads by genre. Otherwise the active section loads. |
| HomePage.GenreChosen | with-supabase-app/app/page.tsx:35 | A genre counts as chosen exactly when the selection, a number or null, is truthy in JavaScript. |
| HomePage.ToggledGenre | with-supabase-app/app/page.tsx:132 | Choosing the selected genre clears it, and choosing any other selects it. |
| HomePage.ToggledGenreTwice | with-supabase-app/app/page.tsx:131-134 | Choosing a genre twice restores the selection exactly when none was selected or it was that genre. |
| HomePage.FindGenre | with-supabase-app/app/page.tsx:73 | `find` gives the first genre with the id, or nothing exactly when none has it. |
| HomePage.ResolveIds | with-supabase-app/app/page.tsx:73 | The resolved genres number at most the ids. Each one is the first genre with one of the ids, and every id that has a genre contributes it. |
| HomePage.ResolveGenres | with-supabase-app/app/page.tsx:73 | Missing `genre_ids` gives `[]`. Otherwise each id is resolved in order. |
| HomePage.ResolveKnownIds | with-supabase-app/app/page.tsx:73 | When every id is known, position `k` holds the first genre with id `k`. |
| HomePage.ResolveSingleId | with-supabase-app/app/page.tsx:73 | One id resolves to the first genre with that id, or to nothing when no genre has it. |
| HomePage.ResolveIdsAppend | with-supabase-app/app/page.tsx:73 | Resolving `a + b` gives the genres of `a` followed by those of `b`, so the ids' order is kept. |
| HomePage.ResolveUnknownId | with-supabase-app/app/page.tsx:73 | An unknown id is dropped wherever it stands in the list. |
| HomePage.WithGenres | with-supabase-app/app/page.tsx:71-74 | Each movie keeps its fields, and its `genres` is set to its resolved genre ids. |
| HomePage.GenreName | with-supabase-app/app/page.tsx:139-140 | It gives the found genre's name, or `undefined` when the genre is unknown. |
| HomePage.SectionName | with-supabase-app/app/page.tsx:143-148 | Each section has its own heading: Popular Movies, Top Rated Movies, Now Playing, Upcoming Movies. |
| HomePage.SectionTitle | with-supabase-app/app/page.tsx:136-149 | A non-empty query gives the search heading. Otherwise a chosen genre gives "<name> Movies", or "undefined Movies" when the list lacks it. Otherwise the section's heading. |
| HomePage.TitleFollowsLoader | with-supabase-app/app/page.tsx:136-149 | The heading names what the dispatched loader fetches: search, then genre, then section. |
| HomePage.Page.constructor | with-supabase-app/app/page.tsx:13-18 | The first render shows the popular section with nothing loaded or chosen. |
| HomePage.Page.Rerun | with-supabase-app/app/page.tsx:30-40 | The effect starts a loader only when one of its dependencies changed. |
| HomePage.Page.HandleSearch | with-supabase-app/app/page.tsx:120-123 | It sets the query and clears the genre, leaving the section. A changed non-empty query loads by search. |
| HomePage.Page.HandleSectionChange | with-supabase-app/app/page.tsx:125-129 | It sets the section and clears the genre and the query. A change loads that section. |
| HomePage.Page.HandleGenreFilter | with-supabase-app/app/page.tsx:131-134 | It toggles the genre and clears the query. A newly chosen non-zero genre loads by genre. Unselecting loads the section. |
| HomePage.Page.LoadGenres | with-supabase-app/app/page.tsx:20-49 | A failed request changes nothing. A non-empty list starts the popular load and then the dispatched load. |
| HomePage.Page.FinishLoad | with-supabase-app/app/page.tsx:51-118 | On success the movies are set with their genres resolved. On failure there are no movies. |
| CollectionSelector.SelectedIds | with-supabase-app/components/collection-selector.tsx:54-56 | An id is selected exactly when some loaded collection has it and its check returned true. |
| CollectionSelector.SelectedIdsAreListed | with-supabase-app/components/collection-selector.tsx:54-56 | Every selected id belongs to a loaded collection. |
| CollectionSelector.Toggled | with-supabase-app/components/collection-selector.tsx:89-109 | On success the id flips. On failure the set is unchanged. No other id's membership changes. |
| CollectionSelector.ToggleTwiceRestores | with-supabase-app/components/collection-selector.tsx:89-109 | Two successful toggles restore the selection. |
| CollectionSelector.Selector.constructor | with-supabase-app/components/collection-selector.tsx:28-32 | The dialog starts with no collections, no selection and an empty name. |
| CollectionSelector.Selector.LoadCollections | with-supabase-app/components/collection-selector.tsx:41-63 | A failed listing changes nothing. Otherwise the list is replaced. A failed check leaves the selection. Otherwise the selection becomes exactly the ids whose checks returned true. |
| CollectionSelector.Selector.HandleCreateCollection | with-supabase-app/components/collection-selector.tsx:65-86 | A blank name sends nothing and changes nothing. Otherwise the trimmed name is sent with `description: ''` and `is_public: false`. On success the new collection is prepended, the name box is emptied and its id is selected. |
| CollectionSelector.Selector.HandleToggleCollection | with-supabase-app/components/collection-selector.tsx:88-110 | A selected id calls remove, and another one calls add. The selection flips that id only when the call succeeded. |

## Left out

- Base64 and JSON encoding, and JSON parsing of `localStorage`: the export payload is a record, and decoding an import is an input that may fail. No round trip through the encoding is claimed.
- Generated collection ids (`Date.now()` with `Math.random()`), `new Date`, `toISOString` and release-date formatting: ids and times are parameters, and times are opaque.
- The `createdAt` string-to-`Date` conversion in `getCollections`: times are opaque, so it is the identity here.
- `parseInt` in the favorites `DELETE`: the delete query carries the raw parameter string.
- `encodeURIComponent` and the TMDB endpoint methods that build endpoint strings: only the URL composition on a given endpoint is modelled.
- `fetch`, the session lookup, the store queries and the collection service: their outcomes are inputs, and what the database does (ordering, row-level security, unique keys) is not modelled.
- `vote_average.toFixed(1)`: floating-point formatting.
- Async interleaving: `Promise.all`, the loaders' closures over stale state, and concurrent toggles are not modelled. Each handler is one sequential step.
- The loading and creating busy flags and the dialog's open state: they only drive the rendering.
- Storage.MergeFields: a key present in an update object with the value `undefined` overwrites with `undefined` in JavaScript. A patch field here is either absent or a value.
- Storage.MovieCollection: stored records are taken to have the declared shape. Hand-edited `localStorage` contents are not modelled.
- HomePage.Page.LoadGenres: React compares effect dependencies by reference. A new genre array always re-runs both effects, so the popular section may load twice. The model returns both loads in order.
- MovieCard.RuntimeLabel: the runtime is taken as always present, as the declared `runtime: number` says. A response that omits it renders nothing at `movie-card.tsx:103`, and that case is not modelled.
- Js.NatToString: numbers are taken as exact integers. JavaScript numbers are doubles: `${n}` writes integers from 10^21 up in exponent form (`1e+21`), and above 2^53 arithmetic rounds. The unbounded integers here do neither. The same limit applies to Js.IntToString, MovieCard.FormatRuntimeRoundTrip and MovieCard.FormatRuntimeInjective.
- MovieCard.Hours: `Math.floor(m / 60)` and `m % 60` are taken as exact. For runtimes above 2^53, where doubles round, MovieCard.Hours, MovieCard.JsRem60 and MovieCard.RuntimeSplit do not describe the source.
- Js.Json: JSON numbers are real numbers. A literal too large for a double parses to an infinity in JavaScript, which this model does not represent.
- MovieCard.FormatRuntime: runtimes are integers. A fractional runtime, which TMDB does not send, is not modelled.
- `lib/storage-v2.ts`, `lib/storage-supabase.ts`, `lib/api-client.ts` and `lib/database/*.ts` only delegate to the store, `fetch` or the encoding. These are outside this model apart from the outcomes they produce.
- The pages and components other than the home page, the movie card and the collection selector contain only rendering. JSX rendering is left out everywhere.
