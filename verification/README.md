# Movie search client — verified model of its controller, store slice and API client

This project models, in Dafny, the three pieces of sequential logic in a small
React/Redux client for the OMDb movie database:

- **The search page controller** (`Home`): the visible page window around the
  current page (at most nine buttons, clamped to the last page), Prev/Next
  enablement, the search and year warnings, the four change handlers (each
  query change sends the page back to 1), and the gate that decides whether an
  effect run dispatches `fetchMovies` and with which arguments.
- **The `movies` store slice** (`MoviesSlice`): the state record, the four
  setters, the pending/fulfilled/rejected cases of the two async thunks as an
  explicit `Event` type with a `Step` function and runs over event sequences,
  and the thunks' mapping of thrown values to rejection messages.
- **The OMDb client** (`OmdbApi`): the ordered query parameters of a search and
  of a detail lookup (built with a model of `URLSearchParams.set`), and the
  classification of a decoded body (`Response === "False"` throws with the
  body's `Error`, anything else resolves unchanged).

Two helper modules: `Wrappers` (`Option`, `Result`) and `Text` (JavaScript
`trim` with the full ECMAScript whitespace set, the `/^\d{4}$/` test,
`toString` of integers and `parseInt` of digit strings, with round-trip lemmas).

Behaviours of the code a reader might not expect:

- The store's setters do **not** reset `page`; only the page's own handlers do,
  and the page keeps its parameters in local state rather than in the store.
- The year warning tests the **untrimmed** text, so `" 2021"` warns.
- The fetch gate reads the warnings of the render it runs in, which may be the
  previous ones. `Home.SettledRun` models the effect re-run that a warning change
  causes and shows that, once settled, the gate is exactly "trimmed search
  non-empty and year valid"; `Home.StaleWarningsGate` shows the intermediate
  run that would have dispatched an invalid year.
- "An error is set only when the status is failed" holds only while requests
  do not overlap (`MoviesSlice.SerializedKeepsErrorWithFailed`); overlapping
  searches break it (`MoviesSlice.StaleErrorInterleaving`).

Abstracted into parameters: the network (`fetch` is a function from the query
to a `Reply`), the API key (a parameter, not the build-time environment) and
the request identifiers Redux Toolkit attaches to thunk actions.

## Model

| member | source | states |
|---|---|---|
| Text.Trim | src/pages/home/Home.tsx:36 | `trim` keeps the contiguous part of the text between its leading and trailing whitespace runs; the result is empty exactly when the text is all whitespace |
| Text.TrimIdempotent | src/pages/home/Home.tsx:61-62 | trimming an already trimmed argument changes nothing |
| Text.IntToDecimalRoundTrip | src/api/omdbApi.ts:45 | the `page` parameter text reads back as the page number, for every integer (JavaScript agrees below 2^53 in magnitude; see Left out) |
| Text.ParseDecimalRoundTrip | src/features/moviesSlice.ts:118 | `parseInt` of a canonical digit string, printed again, gives the string back |
| OmdbApi.SetParam | src/api/omdbApi.ts:41-45 | `URLSearchParams.set`: afterwards the name has exactly one entry with the new value, every other name reads as before, and a new name is appended at the end |
| OmdbApi.SetIfPresent | src/api/omdbApi.ts:43-44 | an empty year or type adds nothing; a non-empty one is set, and appended when new |
| OmdbApi.SetCallsBuildSearchQuery | src/api/omdbApi.ts:40-45 | the `set` calls of a search produce `apikey`, `s`, `y` only for a non-empty year, `type` only for a non-empty type, then `page` as a decimal numeral, in that order |
| OmdbApi.SetCallsBuildDetailQuery | src/api/omdbApi.ts:60-63 | the `set` calls of a detail lookup produce exactly `apikey`, `i`, `plot=full`, in that order |
| OmdbApi.SearchQueryRoundTrip | src/api/omdbApi.ts:40-45 | the provider reads back from a search query exactly the key, search, year, type and page it was built from |
| OmdbApi.SearchQueryShape | src/api/omdbApi.test.ts:30-37 | with no year and no type exactly three parameters are sent, the first being `apikey` with the given key; `y` and `type` are present exactly when non-empty |
| OmdbApi.DetailQueryRoundTrip | src/api/omdbApi.ts:60-63 | a detail query carries exactly the given key and identifier, with `plot=full` |
| OmdbApi.ClassifyBody | src/api/omdbApi.ts:50-53 | a body resolves exactly when its `Response` is not `"False"`, and then unchanged; otherwise it throws an `Error` whose message is the body's `Error` text |
| OmdbApi.Settle | src/api/omdbApi.ts:47-53 | a rejected fetch propagates its own thrown value; a received body is judged by its `Response` field alone |
| OmdbApi.OkFlagIgnored | src/api/omdbApi.ts:47-50 | the HTTP `ok` flag never changes the outcome |
| OmdbApi.GetMovies | src/api/omdbApi.ts:33-54 | the parameters built by the `set` calls go out in exactly one request, no retry, and the provider reads back from it the key, search, year, type and page given; the outcome is settled from that one reply |
| OmdbApi.GetMovieById | src/api/omdbApi.ts:56-72 | the parameters built by the `set` calls go out in exactly one request, no retry, and the provider reads back from it the key and identifier given with `plot=full`; the outcome is settled from that one reply |
| OmdbApi.NotFoundRejectsSearch | src/api/omdbApi.test.ts:40-56 | a `Response: "False"` body with `Error: "Movie not found!"` rejects with exactly that message |
| OmdbApi.NetworkErrorPropagates | src/api/omdbApi.test.ts:85-92 | a transport failure of a detail lookup rejects with the transport's own error after a single request |
| MoviesSlice.InitialState | src/features/moviesSlice.ts:33-41 | the store starts with no results, count 0, status idle, no error, search "Pokemon", empty filters, page 1 |
| MoviesSlice.Step | src/features/moviesSlice.ts:94-137 | each setter overwrites only its own field; no action but `setPage` changes the page; pending sets loading and clears the error (the detail one also clears the current movie); search fulfilled replaces hits and count and leaves error and current movie alone; either rejected sets failed with its message and keeps the results |
| MoviesSlice.RejectMessage | src/features/moviesSlice.ts:62-67 | a thrown `Error` becomes its message verbatim, anything else the fixed unknown-error text |
| MoviesSlice.MoviesCompletion | src/features/moviesSlice.ts:55-68 | `fetchMovies` fulfils exactly when `getMovies` resolves, with the body's hits and count text; otherwise it rejects with the mapped message |
| MoviesSlice.DetailCompletion | src/features/moviesSlice.ts:78-88 | `fetchMovieById` fulfils exactly when `getMovieById` resolves, with the record; otherwise it rejects with the mapped message |
| MoviesSlice.FetchMovies | src/features/moviesSlice.ts:46-69 | a dispatch yields its pending action and then one completion under the same identifier: rejected with the transport's mapped message, rejected with the provider's `Error` text verbatim when `Response` is `"False"`, otherwise fulfilled with the body's payload; the pair is serialized |
| MoviesSlice.FetchMovieById | src/features/moviesSlice.ts:72-89 | a dispatch yields its pending action and then one completion under the same identifier: rejected with the transport's mapped message, rejected with the provider's `Error` text verbatim when `Response` is `"False"`, otherwise fulfilled with the record; the pair is serialized |
| MoviesSlice.SerializedKeepsErrorWithFailed | src/features/moviesSlice.ts:111-137 | when every completion directly follows its own pending, a defined error always comes with status failed |
| MoviesSlice.StaleErrorInterleaving | src/features/moviesSlice.ts:111-123 | pending A, pending B, rejected A, fulfilled B ends idle with B's hits and A's error |
| MoviesSlice.OnlySetPageMovesPage | src/features/moviesSlice.ts:95-106 | over any run without `setPage`, the page never changes |
| MoviesSlice.DetailActionsKeepResults | src/features/moviesSlice.ts:125-137 | detail-lookup actions, in any interleaving, never change the search hits or count |
| MoviesSlice.NotFoundReachesStore | src/features/moviesSlice.ts:120-123 | a "Movie not found!" answer leaves the store failed with exactly that message and the previous results |
| MoviesSlice.TransportFailureReachesStore | src/features/moviesSlice.ts:134-137 | a network failure of a detail lookup leaves the store failed with the transport's message and the search results untouched |
| MoviesSlice.SearchSuccessReplacesResults | src/features/moviesSlice.ts:115-119 | a successful search ends idle with no error, its hits as the data and the parsed count as `totalResults` |
| Home.TotalPages | src/pages/home/Home.tsx:100 | the page count is the least number of ten-result pages holding every result; zero exactly when there are no results |
| Home.WindowBounds | src/pages/home/Home.tsx:99-107 | the window starts at 1 or later, ends at the last page or earlier, has `min(9, totalPages)` pages, and contains the current page whenever it is in range |
| Home.WindowIsClampedCentre | src/pages/home/Home.tsx:102-107 | the window's first page is `page - 4` clamped into `[1, max(1, totalPages - 8)]`, it ends nine pages later or at the last page, and is centred on `page` away from both ends |
| Home.VisiblePages | src/pages/home/Home.tsx:109-112 | the listed pages are consecutive, between 1 and the page count, `min(9, totalPages)` of them, exactly the window's pages, include the current page when in range, and are empty exactly when there are no results |
| Home.ClickTargetInRange | src/pages/home/Home.tsx:188-214 | a rendered Prev, Next or number button never leads below page 1, and from an in-range page never past the last |
| Home.PaginationVisibility | src/pages/home/Home.tsx:115-116 | Prev shows iff there are over ten results and page > 1; Next iff over ten results and page < page count; with ten results or fewer no button shows |
| Home.HandleSearchChange | src/pages/home/Home.tsx:76-80 | the search takes the typed text and the page returns to 1; year and type are kept |
| Home.HandleYearChange | src/pages/home/Home.tsx:82-85 | the year takes the typed text and the page returns to 1; search and type are kept |
| Home.HandleTypeChange | src/pages/home/Home.tsx:87-90 | the type takes the selected option and the page returns to 1; search and year are kept |
| Home.HandlePageChange | src/pages/home/Home.tsx:92-94 | only the page changes |
| Home.Handle | src/pages/home/Home.tsx:76-94 | an edit stores the typed text in its own field, keeps the other two and resets the page to 1; a click on a rendered button moves the page to that button's target (page - 1, the number, page + 1) and changes nothing else, a click on a hidden one changes nothing; page at least 1 is preserved, and so is being within the page count |
| Home.PageStaysPositive | src/pages/home/Home.tsx:25 | from the initial page, no sequence of interactions takes the page below 1 |
| Home.SearchWarning | src/pages/home/Home.tsx:36-40 | the search warning is set exactly when the text is all whitespace |
| Home.YearWarning | src/pages/home/Home.tsx:42-46 | the year warning is set exactly when the untrimmed text is non-empty and not four ASCII digits |
| Home.YearWarningExamples | src/pages/home/Home.tsx:42 | `" 2021"`, `"2021 "`, `"20"` and `"20x1"` warn; `"2021"` and the empty string do not |
| Home.RunEffect | src/pages/home/Home.tsx:50-66 | a run dispatches exactly when the trimmed search is non-empty and the warnings it read were both empty, with trimmed search and year and unchanged type and page |
| Home.SettledRun | src/pages/home/Home.tsx:34-71 | once the warnings settle, a fetch is dispatched exactly when the trimmed search is non-empty and the year is valid, with the trimmed search and the year as typed |
| Home.ValidYearIsTrimmed | src/pages/home/Home.tsx:62 | a year that passes validation is its own trim |
| Home.StaleWarningsGate | src/pages/home/Home.tsx:50-53 | with an invalid year and previously empty warnings, the first run would dispatch it; the settled run does not |
| Home.FirstRenderFetchesDefault | src/pages/home/Home.tsx:22-25 | the first render fetches page 1 of "Pokemon" with no filters |

## Left out

- The debounce timer (`setTimeout`/`clearTimeout`, 300 ms): time and scheduling are not modelled. `Home.SettledRun` assumes that the re-render caused by a warning change happens before the first run's timer fires, which is what makes that timer cancelled.
- `fetch`, `response.json()`, `URL`/`URLSearchParams` percent-encoding and the base URL: the network is the `fetch` parameter, and a body that fails to parse is one more `Rejected` reply.
- Numbers are modelled as exact integers (`int`/`nat`), not IEEE doubles. This matches JavaScript for magnitudes below 2^53. Above that, `page.toString()` switches to exponent notation from 1e21 on, `parseInt` of the result count rounds, and `totalResults / 10` in the page count is float division. None of this is modelled.
- Text.IntToDecimalRoundTrip: holds for every integer, while JavaScript's `toString` is a canonical decimal only below 1e21 in magnitude (exact integers below 2^53).
- Text.ParseDecimalRoundTrip: `parseInt` is exact only for values below 2^53; larger result counts would round.
- Home.TotalPages: integer ceiling division; JavaScript divides in floating point, which agrees for every count below 2^53.
- JSON values of other types in `Response` or `Error`: both fields are modelled as absent or a string. An absent `Error` gives an empty message, as `new Error(undefined)` does.
- MoviesSlice.Step: requires a fulfilled search's `totalResults` text to be a non-empty digit string, because `parseInt` of other text (a prefix parse, or NaN) is not modelled.
- Redux Toolkit internals, store wiring and dispatch: the lifecycle is the explicit `Event` type; thunk cancellation and `condition` are not used by the client.
- Rendering: the page, list, card and detail components, including the poster `'N/A'` fallback in the movie card.
- The environment-sourced API key and the test/build configuration files.
- The detail page's own effect, which dispatches `fetchMovieById` for the route's identifier; it is represented only by `MoviesSlice.FetchMovieById`.
