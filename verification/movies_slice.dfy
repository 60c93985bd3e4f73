/** The `movies` slice of the Redux store: its state, the four setters, the
    pending/fulfilled/rejected cases of the two async thunks, and the thunks'
    mapping of thrown values to rejection messages. Redux Toolkit's plumbing is
    replaced by an explicit event type and a step function over it. */
module MoviesSlice {

  import opened Wrappers
  import Text
  import opened OmdbApi

  /** Request status shared by both thunks. */
  datatype Status = Idle | Loading | Failed

  /** `MoviesState`. `totalResults` is a natural number because every value it
      takes is `0` or `parseInt` of a digit string. */
  datatype State = State(
    data: seq<Movie>,
    totalResults: nat,
    currentMovie: Option<MovieDetail>,
    status: Status,
    error: Option<string>,
    searchQuery: string,
    yearFilter: string,
    typeFilter: string,
    page: int)

  /** The search term the store starts with. */
  const DefaultSearch := "Pokemon"

  /** The rejection message for a thrown value that is not an `Error`. */
  const UnknownError := "An unknown error occurred."

  /** `initialState`. */
  const Initial := State([], 0, None, Idle, None, DefaultSearch, "", "", 1)

  /** The actions the slice's reducer handles. Thunk actions carry the
      request identifier Redux Toolkit puts in their `meta`; the reducer
      never reads it. */
  datatype Event =
    | SetSearchQuery(query: string)
    | SetYearFilter(year: string)
    | SetTypeFilter(kind: string)
    | SetPage(newPage: int)
    | MoviesPending(requestId: nat)
    | MoviesFulfilled(requestId: nat, payload: SearchPayload)
    | MoviesRejected(requestId: nat, message: string)
    | DetailPending(requestId: nat)
    | DetailFulfilled(requestId: nat, movie: MovieDetail)
    | DetailRejected(requestId: nat, reason: string)
  {
    predicate IsSetter() {
      SetSearchQuery? || SetYearFilter? || SetTypeFilter? || SetPage?
    }

    predicate IsPending() {
      MoviesPending? || DetailPending?
    }

    predicate IsCompletion() {
      MoviesFulfilled? || MoviesRejected? || DetailFulfilled? || DetailRejected?
    }

    predicate IsDetail() {
      DetailPending? || DetailFulfilled? || DetailRejected?
    }
  }

  /** An action the reducer can process: a fulfilled search carries a
      `totalResults` that `parseInt` reads in full. */
  predicate WellFormed(e: Event) {
    e.MoviesFulfilled? ==> Text.IsDecimal(e.payload.totalResults)
  }

  predicate AllWellFormed(evs: seq<Event>) {
    forall i :: 0 <= i < |evs| ==> WellFormed(evs[i])
  }

  /** The query fields are the same in both states. */
  predicate SameQuery(s: State, t: State) {
    s.searchQuery == t.searchQuery && s.yearFilter == t.yearFilter
    && s.typeFilter == t.typeFilter && s.page == t.page
  }

  /** The search results are the same in both states. */
  predicate SameResults(s: State, t: State) {
    s.data == t.data && s.totalResults == t.totalResults
  }

  /** The fetched data, status and error are the same in both states. */
  predicate SameFetchState(s: State, t: State) {
    SameResults(s, t) && s.currentMovie == t.currentMovie
    && s.status == t.status && s.error == t.error
  }

  /** The reducer. Setters overwrite their own field and nothing else (in
      particular none resets `page`); thunk events never touch the query
      fields; each lifecycle case changes exactly what the slice's
      `extraReducers` assign. */
  function Step(s: State, e: Event): (r: State)
    requires WellFormed(e)
    ensures e.IsSetter() ==> SameFetchState(s, r)
    ensures !e.IsSetter() ==> SameQuery(s, r)
    ensures e.SetSearchQuery? ==> r.searchQuery == e.query && r.yearFilter == s.yearFilter && r.typeFilter == s.typeFilter
    ensures e.SetYearFilter? ==> r.yearFilter == e.year && r.searchQuery == s.searchQuery && r.typeFilter == s.typeFilter
    ensures e.SetTypeFilter? ==> r.typeFilter == e.kind && r.searchQuery == s.searchQuery && r.yearFilter == s.yearFilter
    ensures e.SetPage? ==> r.page == e.newPage && r.searchQuery == s.searchQuery
                           && r.yearFilter == s.yearFilter && r.typeFilter == s.typeFilter
    ensures !e.SetPage? ==> r.page == s.page
    ensures e.IsPending() ==> r.status == Loading && r.error.None?
    ensures e.MoviesPending? ==> SameResults(s, r) && r.currentMovie == s.currentMovie
    ensures e.MoviesFulfilled? ==>
              && r.status == Idle && r.data == e.payload.search
              && r.totalResults == Text.ParseDecimal(e.payload.totalResults)
              && r.error == s.error && r.currentMovie == s.currentMovie
    ensures e.MoviesRejected? ==> r.status == Failed && r.error == Some(e.message)
    ensures e.DetailRejected? ==> r.status == Failed && r.error == Some(e.reason)
    ensures e.MoviesRejected? || e.DetailRejected? ==> SameResults(s, r) && r.currentMovie == s.currentMovie
    ensures e.IsDetail() ==> SameResults(s, r)
    ensures e.DetailPending? ==> r.currentMovie.None?
    ensures e.DetailFulfilled? ==> r.status == Idle && r.currentMovie == Some(e.movie) && r.error == s.error
  {
    match e
    case SetSearchQuery(q) => s.(searchQuery := q)
    case SetYearFilter(y) => s.(yearFilter := y)
    case SetTypeFilter(t) => s.(typeFilter := t)
    case SetPage(p) => s.(page := p)
    case MoviesPending(_) => s.(status := Loading, error := None)
    case MoviesFulfilled(_, payload) =>
      s.(status := Idle, data := payload.search, totalResults := Text.ParseDecimal(payload.totalResults))
    case MoviesRejected(_, m) => s.(status := Failed, error := Some(m))
    case DetailPending(_) => s.(status := Loading, error := None, currentMovie := None)
    case DetailFulfilled(_, movie) => s.(status := Idle, currentMovie := Some(movie))
    case DetailRejected(_, m) => s.(status := Failed, error := Some(m))
  }

  /** The state after the store has processed `evs` in order. */
  function Run(s: State, evs: seq<Event>): State
    requires AllWellFormed(evs)
    decreases |evs|
  {
    if |evs| == 0 then s else Step(Run(s, evs[..|evs| - 1]), evs[|evs| - 1])
  }

  /** The message a thunk rejects with: an `Error`'s own message, verbatim,
      and a fixed text for anything else that was thrown. */
  function RejectMessage(t: Thrown): (m: string)
    ensures t.ErrorValue? ==> m == t.message
    ensures t.NonErrorValue? ==> m == UnknownError
  {
    match t
    case ErrorValue(message) => message
    case NonErrorValue => UnknownError
  }

  /** The arguments `fetchMovies` is dispatched with. */
  datatype FetchArgs = FetchArgs(search: string, year: string, kind: string, page: int)

  /** The completion action of `fetchMovies` once `getMovies` has settled:
      fulfilled with the hits and the count text of a resolved body, or
      rejected with the mapped message. */
  function MoviesCompletion(id: nat, result: Result<Body<SearchPayload>, Thrown>): (e: Event)
    ensures e.IsCompletion() && !e.IsDetail() && e.requestId == id
    ensures e.MoviesFulfilled? <==> result.Success?
    ensures result.Success? ==> e.payload == result.value.payload
    ensures result.Failure? ==> e == MoviesRejected(id, RejectMessage(result.error))
  {
    match result
    case Success(body) => MoviesFulfilled(id, SearchPayload(body.payload.search, body.payload.totalResults))
    case Failure(t) => MoviesRejected(id, RejectMessage(t))
  }

  /** The completion action of `fetchMovieById` once `getMovieById` has settled. */
  function DetailCompletion(id: nat, result: Result<Body<MovieDetail>, Thrown>): (e: Event)
    ensures e.IsCompletion() && e.IsDetail() && e.requestId == id
    ensures e.DetailFulfilled? <==> result.Success?
    ensures result.Success? ==> e.movie == result.value.payload
    ensures result.Failure? ==> e == DetailRejected(id, RejectMessage(result.error))
  {
    match result
    case Success(body) => DetailFulfilled(id, body.payload)
    case Failure(t) => DetailRejected(id, RejectMessage(t))
  }

  /** The actions one `fetchMovies` dispatch produces: its pending action,
      then the completion of the single request `getMovies` sends, both under
      the dispatch's request identifier. */
  function FetchMovies(id: nat, apiKey: string, args: FetchArgs, fetch: Query -> Reply<SearchPayload>): (evs: seq<Event>)
    ensures |evs| == 2 && evs[0] == MoviesPending(id)
    ensures var reply := fetch(SearchQuery(apiKey, args.search, args.year, args.kind, args.page));
      && (reply.Rejected? ==> evs[1] == MoviesRejected(id, RejectMessage(reply.thrown)))
      && (reply.Received? && reply.body.response == Some("False") ==>
            evs[1] == MoviesRejected(id, ErrorText(reply.body.error)))
      && (reply.Received? && reply.body.response != Some("False") ==>
            evs[1] == MoviesFulfilled(id, reply.body.payload))
    ensures evs[0] == PendingOf(evs[1])
    ensures Serialized(evs)
  {
    [MoviesPending(id), MoviesCompletion(id, GetMovies(apiKey, args.search, args.year, args.kind, args.page, fetch).result)]
  }

  /** The actions one `fetchMovieById` dispatch produces: its pending action,
      then the completion of the single request `getMovieById` sends. */
  function FetchMovieById(id: nat, apiKey: string, imdbId: string, fetch: Query -> Reply<MovieDetail>): (evs: seq<Event>)
    ensures |evs| == 2 && evs[0] == DetailPending(id)
    ensures var reply := fetch(DetailQuery(apiKey, imdbId));
      && (reply.Rejected? ==> evs[1] == DetailRejected(id, RejectMessage(reply.thrown)))
      && (reply.Received? && reply.body.response == Some("False") ==>
            evs[1] == DetailRejected(id, ErrorText(reply.body.error)))
      && (reply.Received? && reply.body.response != Some("False") ==>
            evs[1] == DetailFulfilled(id, reply.body.payload))
    ensures evs[0] == PendingOf(evs[1])
    ensures Serialized(evs)
  {
    [DetailPending(id), DetailCompletion(id, GetMovieById(apiKey, imdbId, fetch).result)]
  }

  /** Processing two actions is processing one, then the other. */
  lemma RunPair(s: State, a: Event, b: Event)
    requires WellFormed(a) && WellFormed(b)
    ensures AllWellFormed([a, b])
    ensures Run(s, [a, b]) == Step(Step(s, a), b)
  {
    assert [a, b][..1] == [a];
    assert [a][..0] == [];
    assert Run(s, [a]) == Step(Run(s, []), a);
    assert Run(s, [a, b]) == Step(Run(s, [a]), b);
  }

  // ---------------------------------------------------------------------
  // Properties over event sequences
  // ---------------------------------------------------------------------

  /** A defined error goes with status `failed`. */
  predicate ErrorMeansFailed(s: State) {
    s.error.Some? ==> s.status == Failed
  }

  /** The pending action that opens the request a completion closes. */
  function PendingOf(e: Event): (p: Event)
    requires e.IsCompletion()
    ensures p.IsPending() && (p.IsDetail() <==> e.IsDetail()) && p.requestId == e.requestId
  {
    if e.IsDetail() then DetailPending(e.requestId) else MoviesPending(e.requestId)
  }

  /** Requests never overlap: every completion directly follows its own pending. */
  predicate Serialized(evs: seq<Event>) {
    forall i :: 0 <= i < |evs| && evs[i].IsCompletion() ==> i > 0 && evs[i - 1] == PendingOf(evs[i])
  }

  /** The initial state has no results, no error, the default search and page 1. */
  lemma InitialState()
    ensures Initial.data == [] && Initial.totalResults == 0 && Initial.currentMovie.None?
    ensures Initial.status == Idle && Initial.error.None? && ErrorMeansFailed(Initial)
    ensures Initial.searchQuery == "Pokemon" && Initial.yearFilter == "" && Initial.typeFilter == ""
    ensures Initial.page == 1
  {
  }

  /** While requests do not overlap, a displayed error always comes with
      status `failed`. */
  lemma {:induction false} SerializedKeepsErrorWithFailed(s: State, evs: seq<Event>)
    requires AllWellFormed(evs) && Serialized(evs)
    requires ErrorMeansFailed(s)
    ensures ErrorMeansFailed(Run(s, evs))
    decreases |evs|
  {
    if |evs| > 0 {
      var n := |evs|;
      var front := evs[..n - 1];
      assert AllWellFormed(front) && Serialized(front) by {
        forall i | 0 <= i < |front|
          ensures WellFormed(front[i])
          ensures front[i].IsCompletion() ==> i > 0 && front[i - 1] == PendingOf(front[i])
        {
          assert front[i] == evs[i];
        }
      }
      SerializedKeepsErrorWithFailed(s, front);
      var last := evs[n - 1];
      if last.IsCompletion() {
        assert evs[n - 2] == PendingOf(last);
        assert front[..n - 2] == evs[..n - 2];
        assert Run(s, front).error.None?;
      }
    }
  }

  /** Two overlapping searches: the first fails after the second has started,
      and the second then succeeds. The store ends `idle` while still showing
      the first search's error, because nothing ties a completion to the
      latest request. */
  lemma StaleErrorInterleaving(s: State, message: string, payload: SearchPayload)
    requires Text.IsDecimal(payload.totalResults)
    ensures var evs := [MoviesPending(1), MoviesPending(2), MoviesRejected(1, message), MoviesFulfilled(2, payload)];
      && AllWellFormed(evs)
      && !Serialized(evs)
      && Run(s, evs).status == Idle
      && Run(s, evs).error == Some(message)
      && Run(s, evs).data == payload.search
      && !ErrorMeansFailed(Run(s, evs))
  {
    var evs := [MoviesPending(1), MoviesPending(2), MoviesRejected(1, message), MoviesFulfilled(2, payload)];
    assert evs[..3][..2][..1] == [MoviesPending(1)];
    assert evs[..3][..2][..1][..0] == [];
    assert evs[..3][..2] == [MoviesPending(1), MoviesPending(2)];
    assert evs[..3] == [MoviesPending(1), MoviesPending(2), MoviesRejected(1, message)];
    assert evs[2].IsCompletion() && evs[1] != PendingOf(evs[2]);
  }

  /** No action other than `setPage` moves the page: in particular neither the
      other setters nor any thunk action resets it. */
  lemma {:induction false} OnlySetPageMovesPage(s: State, evs: seq<Event>)
    requires AllWellFormed(evs)
    requires forall i :: 0 <= i < |evs| ==> !evs[i].SetPage?
    ensures Run(s, evs).page == s.page
    decreases |evs|
  {
    if |evs| > 0 {
      var front := evs[..|evs| - 1];
      assert forall i :: 0 <= i < |front| ==> front[i] == evs[i];
      OnlySetPageMovesPage(s, front);
    }
  }

  /** Detail-lookup actions, however they interleave with one another, never
      alter the search results. */
  lemma {:induction false} DetailActionsKeepResults(s: State, evs: seq<Event>)
    requires AllWellFormed(evs)
    requires forall i :: 0 <= i < |evs| ==> evs[i].IsDetail()
    ensures SameResults(s, Run(s, evs))
    decreases |evs|
  {
    if |evs| > 0 {
      var front := evs[..|evs| - 1];
      assert forall i :: 0 <= i < |front| ==> front[i] == evs[i];
      DetailActionsKeepResults(s, front);
    }
  }

  /** A provider "not found" answer to a search ends with the store `failed`
      and showing exactly the provider's message, results untouched. */
  lemma NotFoundReachesStore(s: State, id: nat, apiKey: string, args: FetchArgs, fetch: Query -> Reply<SearchPayload>)
    requires forall q :: fetch(q) == Received(true, Body(Some("False"), Some("Movie not found!"), SearchPayload([], "0")))
    ensures var evs := FetchMovies(id, apiKey, args, fetch);
      && AllWellFormed(evs)
      && Run(s, evs).status == Failed
      && Run(s, evs).error == Some("Movie not found!")
      && SameResults(s, Run(s, evs))
  {
    var evs := FetchMovies(id, apiKey, args, fetch);
    NotFoundRejectsSearch(apiKey, args.search, args.year, args.kind, args.page, fetch);
    assert evs[1] == MoviesRejected(id, "Movie not found!");
    RunPair(s, evs[0], evs[1]);
    assert evs == [evs[0], evs[1]];
  }

  /** A transport failure of a detail lookup reaches the store as the
      transport's own message, and the search results are untouched. */
  lemma TransportFailureReachesStore(s: State, id: nat, apiKey: string, imdbId: string, fetch: Query -> Reply<MovieDetail>, message: string)
    requires forall q :: fetch(q) == Rejected(ErrorValue(message))
    ensures var evs := FetchMovieById(id, apiKey, imdbId, fetch);
      && AllWellFormed(evs)
      && Run(s, evs).status == Failed
      && Run(s, evs).error == Some(message)
      && SameResults(s, Run(s, evs))
  {
    var evs := FetchMovieById(id, apiKey, imdbId, fetch);
    NetworkErrorPropagates(apiKey, imdbId, fetch, ErrorValue(message));
    assert evs[1] == DetailRejected(id, message);
    RunPair(s, evs[0], evs[1]);
    assert evs == [evs[0], evs[1]];
  }

  /** A successful search replaces the hits and the count in one step, with
      the count read from the body's text, and leaves no error behind. */
  lemma SearchSuccessReplacesResults(s: State, id: nat, apiKey: string, args: FetchArgs, fetch: Query -> Reply<SearchPayload>, body: Body<SearchPayload>)
    requires body.response != Some("False") && Text.IsDecimal(body.payload.totalResults)
    requires forall q :: fetch(q) == Received(true, body)
    ensures var evs := FetchMovies(id, apiKey, args, fetch);
      && AllWellFormed(evs)
      && Run(s, evs).status == Idle
      && Run(s, evs).error.None?
      && Run(s, evs).data == body.payload.search
      && Run(s, evs).totalResults == Text.ParseDecimal(body.payload.totalResults)
  {
    var evs := FetchMovies(id, apiKey, args, fetch);
    assert evs[1] == MoviesFulfilled(id, body.payload);
    RunPair(s, evs[0], evs[1]);
    assert evs == [evs[0], evs[1]];
  }
}
