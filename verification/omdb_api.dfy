/** The OMDb client: which query parameters a search or a detail lookup sends,
    and how a decoded response body is turned into a resolved value or a thrown
    error. The network call itself is a parameter (`fetch`), and the URL's
    percent-encoding and base address are not modelled. */
module OmdbApi {

  import opened Wrappers
  import Text

  /** One search hit (`Movie` in the slice). */
  datatype Movie = Movie(title: string, year: string, imdbId: string, kind: string, poster: string)

  /** A full record from a detail lookup (`MovieDetail`, which extends `Movie`). */
  datatype MovieDetail = MovieDetail(
    summary: Movie,
    runtime: string,
    genre: string,
    director: string,
    actors: string,
    plot: string,
    imdbRating: string)

  /** The part of a search body the store keeps: the hits and the total count as text. */
  datatype SearchPayload = SearchPayload(search: seq<Movie>, totalResults: string)

  /** A decoded JSON body: the `Response` and `Error` fields the client inspects
      (absent or present as strings) and the rest of the record as `payload`. */
  datatype Body<P> = Body(response: Option<string>, error: Option<string>, payload: P)

  /** A value thrown by a rejected promise: an `Error` object with its message,
      or some other value. */
  datatype Thrown = ErrorValue(message: string) | NonErrorValue

  /** What `await fetch(url)` followed by `await response.json()` produces:
      a response with its `ok` flag and decoded body, or a rejection (network
      failure, or a body that is not JSON). */
  datatype Reply<P> = Received(ok: bool, body: Body<P>) | Rejected(thrown: Thrown)

  /** The requests one call sends and how its promise settles. */
  datatype Exchange<P> = Exchange(sent: seq<Query>, result: Result<Body<P>, Thrown>)

  type Param = (string, string)

  /** The entries of a `URLSearchParams`, in order. */
  type Query = seq<Param>

  /** `URLSearchParams.get`: the value of the first entry called `name`. */
  function Lookup(q: Query, name: string): (r: Option<string>)
    ensures r.None? <==> forall k :: 0 <= k < |q| ==> q[k].0 != name
    decreases |q|
  {
    if |q| == 0 then None
    else if q[0].0 == name then Some(q[0].1)
    else Lookup(q[1..], name)
  }

  /** How many entries are called `name`. */
  function Count(q: Query, name: string): nat
    decreases |q|
  {
    if |q| == 0 then 0
    else (if q[0].0 == name then 1 else 0) + Count(q[1..], name)
  }

  /** `q` without any entry called `name`. */
  function Delete(q: Query, name: string): (r: Query)
    ensures Count(r, name) == 0
    ensures forall other :: other != name ==> Lookup(r, other) == Lookup(q, other)
    ensures forall other :: other != name ==> Count(r, other) == Count(q, other)
    decreases |q|
  {
    if |q| == 0 then []
    else if q[0].0 == name then Delete(q[1..], name)
    else
      var r := [q[0]] + Delete(q[1..], name);
      assert r[1..] == Delete(q[1..], name);
      r
  }

  /** `URLSearchParams.set(name, value)`: the first entry called `name` takes
      the new value in place and the others are dropped; when there is none,
      the entry is appended. */
  function SetParam(q: Query, name: string, value: string): (r: Query)
    ensures Lookup(r, name) == Some(value)
    ensures Count(r, name) == 1
    ensures forall other :: other != name ==> Lookup(r, other) == Lookup(q, other)
    ensures forall other :: other != name ==> Count(r, other) == Count(q, other)
    ensures Count(q, name) == 0 ==> r == q + [(name, value)]
    decreases |q|
  {
    if |q| == 0 then
      [(name, value)]
    else if q[0].0 == name then
      var r := [(name, value)] + Delete(q[1..], name);
      assert r[1..] == Delete(q[1..], name);
      r
    else
      var rest := SetParam(q[1..], name, value);
      var r := [q[0]] + rest;
      assert r[1..] == rest;
      assert Count(q, name) == 0 ==> r == q + [(name, value)] by {
        if Count(q, name) == 0 {
          assert q == [q[0]] + q[1..];
        }
      }
      r
  }

  /** An entry called `name` is counted exactly when `get(name)` finds one. */
  lemma {:induction false} CountZeroIffAbsent(q: Query, name: string)
    ensures Count(q, name) == 0 <==> Lookup(q, name).None?
    decreases |q|
  {
    if |q| > 0 {
      CountZeroIffAbsent(q[1..], name);
    }
  }

  /** `set` of a name the query does not hold yet appends it. */
  lemma SetFreshAppends(q: Query, name: string, value: string)
    requires forall k :: 0 <= k < |q| ==> q[k].0 != name
    ensures SetParam(q, name, value) == q + [(name, value)]
  {
    CountZeroIffAbsent(q, name);
  }

  /** `if (value) params.set(name, value)`: only a non-empty value is set. */
  function SetIfPresent(q: Query, name: string, value: string): (r: Query)
    ensures value == "" ==> r == q
    ensures value != "" ==> Lookup(r, name) == Some(value)
    ensures (forall k :: 0 <= k < |q| ==> q[k].0 != name) ==>
              r == q + (if value != "" then [(name, value)] else [])
  {
    assert (forall k :: 0 <= k < |q| ==> q[k].0 != name) ==> SetParam(q, name, value) == q + [(name, value)] by {
      if forall k :: 0 <= k < |q| ==> q[k].0 != name {
        SetFreshAppends(q, name, value);
      }
    }
    if value != "" then SetParam(q, name, value) else q
  }

  /** The parameters `getMovies` sends: `apikey`, `s`, then `y` only for a
      non-empty year, `type` only for a non-empty type, then `page` as a
      decimal numeral. */
  function SearchQuery(apiKey: string, search: string, year: string, kind: string, page: int): Query {
    [("apikey", apiKey), ("s", search)]
    + (if year != "" then [("y", year)] else [])
    + (if kind != "" then [("type", kind)] else [])
    + [("page", Text.IntToDecimal(page))]
  }

  /** The `set` calls `getMovies` makes on a fresh `URLSearchParams`. */
  function SearchQueryBySet(apiKey: string, search: string, year: string, kind: string, page: int): Query {
    var q1 := SetParam(SetParam([], "apikey", apiKey), "s", search);
    var q3 := SetIfPresent(SetIfPresent(q1, "y", year), "type", kind);
    SetParam(q3, "page", Text.IntToDecimal(page))
  }

  /** The `set` calls of `getMovies` append each parameter in call order:
      no name repeats, so none replaces an earlier entry. */
  lemma SetCallsBuildSearchQuery(apiKey: string, search: string, year: string, kind: string, page: int)
    ensures SearchQueryBySet(apiKey, search, year, kind, page) == SearchQuery(apiKey, search, year, kind, page)
  {
    var q1 := SetParam(SetParam([], "apikey", apiKey), "s", search);
    BaseParams(apiKey, search);
    var q3 := SetIfPresent(SetIfPresent(q1, "y", year), "type", kind);
    FilterParams(q1, apiKey, search, year, kind);
    SetFreshAppends(q3, "page", Text.IntToDecimal(page));
  }

  lemma BaseParams(apiKey: string, search: string)
    ensures SetParam(SetParam([], "apikey", apiKey), "s", search) == [("apikey", apiKey), ("s", search)]
  {
    SetFreshAppends([], "apikey", apiKey);
    SetFreshAppends([("apikey", apiKey)], "s", search);
  }

  lemma FilterParams(q1: Query, apiKey: string, search: string, year: string, kind: string)
    requires q1 == [("apikey", apiKey), ("s", search)]
    ensures var q3 := SetIfPresent(SetIfPresent(q1, "y", year), "type", kind);
      && q3 == q1 + (if year != "" then [("y", year)] else []) + (if kind != "" then [("type", kind)] else [])
      && forall k :: 0 <= k < |q3| ==> q3[k].0 != "page"
  {
    var q2 := SetIfPresent(q1, "y", year);
    assert q2 == q1 + (if year != "" then [("y", year)] else []);
    assert forall k :: 0 <= k < |q2| ==> q2[k].0 != "type";
  }

  /** The parameters `getMovieById` sends: `apikey`, `i` and `plot=full`. */
  function DetailQuery(apiKey: string, imdbId: string): Query {
    [("apikey", apiKey), ("i", imdbId), ("plot", "full")]
  }

  /** The `set` calls `getMovieById` makes on a fresh `URLSearchParams`. */
  function DetailQueryBySet(apiKey: string, imdbId: string): Query {
    SetParam(SetParam(SetParam([], "apikey", apiKey), "i", imdbId), "plot", "full")
  }

  /** The `set` calls of `getMovieById` append its three parameters in order. */
  lemma SetCallsBuildDetailQuery(apiKey: string, imdbId: string)
    ensures DetailQueryBySet(apiKey, imdbId) == DetailQuery(apiKey, imdbId)
  {
    var q0 := SetParam([], "apikey", apiKey);
    SetFreshAppends([], "apikey", apiKey);
    var q1 := SetParam(q0, "i", imdbId);
    SetFreshAppends(q0, "i", imdbId);
    SetFreshAppends(q1, "plot", "full");
  }

  /** The arguments of a search as the provider reads them back from a query. */
  datatype SearchRequest = SearchRequest(apiKey: string, search: string, year: string, kind: string, page: int)

  /** Reads a search query the way the provider does: `apikey`, `s` and a
      numeric `page` are required; a missing `y` or `type` means no filter. */
  function DecodeSearch(q: Query): Option<SearchRequest> {
    match (Lookup(q, "apikey"), Lookup(q, "s"), Lookup(q, "page"))
    case (Some(key), Some(search), Some(pageText)) =>
      (match Text.ParseInteger(pageText)
       case Some(page) =>
         Some(SearchRequest(key, search, Lookup(q, "y").GetOr(""), Lookup(q, "type").GetOr(""), page))
       case None => None)
    case _ => None
  }

  /** Reads a detail query back: the key and the identifier, when `plot=full` is present. */
  function DecodeDetail(q: Query): Option<(string, string)> {
    match (Lookup(q, "apikey"), Lookup(q, "i"), Lookup(q, "plot"))
    case (Some(key), Some(id), Some("full")) => Some((key, id))
    case _ => None
  }

  /** `get` finds the entry at `i` when no earlier entry has its name. */
  lemma {:induction false} LookupAt(q: Query, i: nat)
    requires i < |q|
    requires forall k :: 0 <= k < i ==> q[k].0 != q[i].0
    ensures Lookup(q, q[i].0) == Some(q[i].1)
    decreases i
  {
    if i > 0 {
      LookupAt(q[1..], i - 1);
    }
  }

  /** Nothing a search call is given is lost on the way to the provider: an
      empty year or type and an absent one mean the same thing to it. */
  lemma SearchQueryRoundTrip(apiKey: string, search: string, year: string, kind: string, page: int)
    ensures DecodeSearch(SearchQuery(apiKey, search, year, kind, page))
         == Some(SearchRequest(apiKey, search, year, kind, page))
  {
    var q := SearchQuery(apiKey, search, year, kind, page);
    SearchQueryLookups(apiKey, search, year, kind, page);
    Text.IntToDecimalRoundTrip(page);
  }

  /** What `get` reads from a search query, name by name. */
  lemma SearchQueryLookups(apiKey: string, search: string, year: string, kind: string, page: int)
    ensures var q := SearchQuery(apiKey, search, year, kind, page);
      && Lookup(q, "apikey") == Some(apiKey)
      && Lookup(q, "s") == Some(search)
      && Lookup(q, "y").GetOr("") == year
      && Lookup(q, "type").GetOr("") == kind
      && Lookup(q, "page") == Some(Text.IntToDecimal(page))
  {
    var q := SearchQuery(apiKey, search, year, kind, page);
    SearchListLookups(q, apiKey, search, year, kind, Text.IntToDecimal(page));
  }

  lemma SearchListLookups(q: Query, apiKey: string, search: string, year: string, kind: string, pageText: string)
    requires q == [("apikey", apiKey), ("s", search)]
                + (if year != "" then [("y", year)] else [])
                + (if kind != "" then [("type", kind)] else [])
                + [("page", pageText)]
    ensures Lookup(q, "apikey") == Some(apiKey)
    ensures Lookup(q, "s") == Some(search)
    ensures Lookup(q, "y").GetOr("") == year
    ensures Lookup(q, "type").GetOr("") == kind
    ensures Lookup(q, "page") == Some(pageText)
  {
    LookupAt(q, 0);
    LookupAt(q, 1);
    LookupAt(q, |q| - 1);
    if year != "" {
      LookupAt(q, 2);
    }
    if kind != "" {
      LookupAt(q, |q| - 2);
    }
  }

  /** A detail query carries exactly the key and identifier it was built from. */
  lemma DetailQueryRoundTrip(apiKey: string, imdbId: string)
    ensures DecodeDetail(DetailQuery(apiKey, imdbId)) == Some((apiKey, imdbId))
  {
    var q := DetailQuery(apiKey, imdbId);
    LookupAt(q, 0);
    LookupAt(q, 1);
    LookupAt(q, 2);
  }

  /** With no year and no type exactly three parameters are sent, the first
      carrying the key; each optional one is sent exactly when it is non-empty. */
  lemma SearchQueryShape(apiKey: string, search: string, year: string, kind: string, page: int)
    ensures var q := SearchQuery(apiKey, search, year, kind, page);
      && |q| == 3 + (if year != "" then 1 else 0) + (if kind != "" then 1 else 0)
      && q[0] == ("apikey", apiKey)
      && (Lookup(q, "y").Some? <==> year != "")
      && (Lookup(q, "type").Some? <==> kind != "")
  {
    var q := SearchQuery(apiKey, search, year, kind, page);
    SearchListLookups(q, apiKey, search, year, kind, Text.IntToDecimal(page));
    assert year == "" ==> Lookup(q, "y").None?;
  }

  /** The text of `new Error(x)`: `x` itself, or the empty string for `undefined`. */
  function ErrorText(x: Option<string>): string {
    x.GetOr("")
  }

  /** What the client does with a decoded body: `Response === "False"` throws
      an `Error` carrying the body's `Error` field; any other body resolves
      unchanged. */
  function ClassifyBody<P>(b: Body<P>): (r: Result<Body<P>, Thrown>)
    ensures r.Success? <==> b.response != Some("False")
    ensures r.Success? ==> r.value == b
    ensures r.Failure? ==> r.error == ErrorValue(ErrorText(b.error))
  {
    if b.response == Some("False") then Failure(ErrorValue(ErrorText(b.error))) else Success(b)
  }

  /** How the promise of a client call settles given the reply to its single
      request: a rejected fetch propagates its own thrown value, and a received
      body is judged by `ClassifyBody` alone, whatever the HTTP `ok` flag says. */
  function Settle<P>(reply: Reply<P>): (r: Result<Body<P>, Thrown>)
    ensures reply.Rejected? ==> r == Failure(reply.thrown)
    ensures reply.Received? ==> r == ClassifyBody(reply.body)
  {
    match reply
    case Rejected(t) => Failure(t)
    case Received(_, b) => ClassifyBody(b)
  }

  /** The HTTP status flag never decides the outcome. */
  lemma OkFlagIgnored<P>(b: Body<P>)
    ensures Settle(Received(true, b)) == Settle(Received(false, b))
  {
  }

  /** `getMovies`: builds its parameters with the `set` calls and sends one
      request, without retry. */
  function GetMovies(
    apiKey: string, search: string, year: string, kind: string, page: int,
    fetch: Query -> Reply<SearchPayload>): (x: Exchange<SearchPayload>)
    ensures x.sent == [SearchQuery(apiKey, search, year, kind, page)]
    ensures DecodeSearch(x.sent[0]) == Some(SearchRequest(apiKey, search, year, kind, page))
    ensures x.result == Settle(fetch(x.sent[0]))
  {
    var q := SearchQueryBySet(apiKey, search, year, kind, page);
    SetCallsBuildSearchQuery(apiKey, search, year, kind, page);
    SearchQueryRoundTrip(apiKey, search, year, kind, page);
    Exchange([q], Settle(fetch(q)))
  }

  /** `getMovieById`: builds its parameters with the `set` calls and sends one
      request, without retry. */
  function GetMovieById(
    apiKey: string, imdbId: string,
    fetch: Query -> Reply<MovieDetail>): (x: Exchange<MovieDetail>)
    ensures x.sent == [DetailQuery(apiKey, imdbId)]
    ensures DecodeDetail(x.sent[0]) == Some((apiKey, imdbId))
    ensures x.result == Settle(fetch(x.sent[0]))
  {
    var q := DetailQueryBySet(apiKey, imdbId);
    SetCallsBuildDetailQuery(apiKey, imdbId);
    DetailQueryRoundTrip(apiKey, imdbId);
    Exchange([q], Settle(fetch(q)))
  }

  /** The provider's "not found" body rejects `getMovies` with exactly its message. */
  lemma NotFoundRejectsSearch(
    apiKey: string, search: string, year: string, kind: string, page: int,
    fetch: Query -> Reply<SearchPayload>)
    requires forall q :: fetch(q) == Received(true, Body(Some("False"), Some("Movie not found!"), SearchPayload([], "0")))
    ensures GetMovies(apiKey, search, year, kind, page, fetch).result == Failure(ErrorValue("Movie not found!"))
  {
  }

  /** A network failure rejects `getMovieById` with the transport's own error. */
  lemma NetworkErrorPropagates(apiKey: string, imdbId: string, fetch: Query -> Reply<MovieDetail>, t: Thrown)
    requires forall q :: fetch(q) == Rejected(t)
    ensures GetMovieById(apiKey, imdbId, fetch).result == Failure(t)
    ensures |GetMovieById(apiKey, imdbId, fetch).sent| == 1
  {
  }
}
