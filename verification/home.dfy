/** The search page's controller logic: the page window and the Prev/Next
    buttons, the validation warnings, the change handlers, and the gate that
    decides whether an effect run dispatches `fetchMovies` and with which
    arguments. Rendering and the debounce timer are not modelled. */
module Home {

  import opened Wrappers
  import Text
  import opened MoviesSlice

  /** How many page buttons the window shows at most. */
  const PageWindow := 9

  /** Results per provider page. */
  const ResultsPerPage := 10

  function Min(a: int, b: int): int {
    if a <= b then a else b
  }

  function Max(a: int, b: int): int {
    if a >= b then a else b
  }

  // ---------------------------------------------------------------------
  // Pagination
  // ---------------------------------------------------------------------

  /** `Math.ceil(totalResults / 10)`: the fewest pages of ten that hold every result. */
  function TotalPages(totalResults: nat): (n: nat)
    ensures totalResults <= n * ResultsPerPage
    ensures n > 0 ==> (n - 1) * ResultsPerPage < totalResults
    ensures n == 0 <==> totalResults == 0
  {
    (totalResults + ResultsPerPage - 1) / ResultsPerPage
  }

  /** The first and last page number the window shows (an empty window has `last < first`). */
  datatype Window = Window(first: int, last: int)

  /** The window computation: start four pages before `page` (never before
      page 1), span nine pages, and when that runs past the last page, end
      at the last page and start nine before it (again never before 1). */
  function WindowBounds(page: int, totalPages: nat): (w: Window)
    ensures w.first >= 1 && w.last <= totalPages
    ensures w.last - w.first + 1 == Min(PageWindow, totalPages)
    ensures 1 <= page <= totalPages ==> w.first <= page <= w.last
  {
    var start := Max(1, page - PageWindow / 2);
    var end := start + PageWindow - 1;
    if end > totalPages then
      Window(Max(1, totalPages - PageWindow + 1), totalPages)
    else
      Window(start, end)
  }

  /** An independent description of the window: its first page is `page - 4`
      clamped into `[1, max(1, totalPages - 8)]`, and it runs for nine pages
      or up to the last page, whichever is shorter. Away from both ends it is
      centred on `page`. */
  lemma WindowIsClampedCentre(page: int, totalPages: nat)
    ensures var w := WindowBounds(page, totalPages);
      && w.first == Max(1, Min(page - 4, Max(1, totalPages - 8)))
      && w.last == Min(w.first + 8, totalPages)
      && (5 <= page <= totalPages - 4 ==> w.first == page - 4 && w.last == page + 4)
  {
  }

  /** The `for` loop that lists the visible page numbers. */
  method VisiblePages(page: int, totalResults: nat) returns (pages: seq<int>)
    ensures |pages| == Min(PageWindow, TotalPages(totalResults))
    ensures forall i :: 0 <= i < |pages| ==> pages[i] == pages[0] + i
    ensures forall i :: 0 <= i < |pages| ==> 1 <= pages[i] <= TotalPages(totalResults)
    ensures forall p :: p in pages <==> WindowBounds(page, TotalPages(totalResults)).first <= p <= WindowBounds(page, TotalPages(totalResults)).last
    ensures 1 <= page <= TotalPages(totalResults) ==> page in pages
    ensures totalResults == 0 <==> pages == []
  {
    var w := WindowBounds(page, TotalPages(totalResults));
    pages := [];
    var i := w.first;
    while i <= w.last
      invariant w.first <= i <= w.last + 1
      invariant |pages| == i - w.first
      invariant forall k :: 0 <= k < |pages| ==> pages[k] == w.first + k
    {
      pages := pages + [i];
      i := i + 1;
    }
    forall p | w.first <= p <= w.last
      ensures p in pages
    {
      assert pages[p - w.first] == p;
    }
  }

  /** The Prev button is shown. */
  predicate CanGoPrev(page: int) {
    page > 1
  }

  /** The Next button is shown. */
  predicate CanGoNext(page: int, totalPages: nat) {
    page < totalPages
  }

  /** The pagination block is rendered at all. */
  predicate ShowsPagination(totalPages: nat) {
    totalPages > 1
  }

  /** The buttons of the pagination block. */
  datatype Button = Prev | Next | PageNumber(number: int)

  /** The button is on screen for this page and result count. */
  predicate Rendered(b: Button, page: int, totalResults: nat) {
    var total := TotalPages(totalResults);
    var w := WindowBounds(page, total);
    ShowsPagination(total)
    && match b
       case Prev => CanGoPrev(page)
       case Next => CanGoNext(page, total)
       case PageNumber(p) => w.first <= p <= w.last
  }

  /** The page a button's click handler asks for. */
  function Target(b: Button, page: int): int {
    match b
    case Prev => page - 1
    case Next => page + 1
    case PageNumber(p) => p
  }

  /** A rendered button never leads below page 1, and from a page within
      range it never leads past the last page. */
  lemma ClickTargetInRange(b: Button, page: int, totalResults: nat)
    requires page >= 1 && Rendered(b, page, totalResults)
    ensures Target(b, page) >= 1
    ensures page <= TotalPages(totalResults) ==> Target(b, page) <= TotalPages(totalResults)
  {
  }

  /** Prev, Next and the block itself, stated on the result count. */
  lemma PaginationVisibility(page: int, totalResults: nat)
    ensures Rendered(Prev, page, totalResults) <==> totalResults > 10 && page > 1
    ensures Rendered(Next, page, totalResults) <==> totalResults > 10 && page < TotalPages(totalResults)
    ensures totalResults <= 10 ==> forall b :: !Rendered(b, page, totalResults)
  {
  }

  // ---------------------------------------------------------------------
  // Query parameters and their handlers
  // ---------------------------------------------------------------------

  /** The page's local state: the four query parameters. */
  datatype Params = Params(search: string, year: string, kind: string, page: int)

  /** The state on first render. */
  const InitialParams := Params("Pokemon", "", "", 1)

  /** The user's interactions with the controls. */
  datatype Input =
    | SearchTyped(text: string)
    | YearTyped(text: string)
    | TypeSelected(option: string)
    | Clicked(button: Button, totalResults: nat)

  /** `handleSearchChange`: the new text, back to page 1. */
  function HandleSearchChange(p: Params, text: string): (r: Params)
    ensures r.search == text && r.page == 1
    ensures r.year == p.year && r.kind == p.kind
  {
    p.(search := text, page := 1)
  }

  /** `handleYearChange`: the new text, back to page 1. */
  function HandleYearChange(p: Params, text: string): (r: Params)
    ensures r.year == text && r.page == 1
    ensures r.search == p.search && r.kind == p.kind
  {
    p.(year := text, page := 1)
  }

  /** `handleTypeChange`: the selected option, back to page 1. */
  function HandleTypeChange(p: Params, option: string): (r: Params)
    ensures r.kind == option && r.page == 1
    ensures r.search == p.search && r.year == p.year
  {
    p.(kind := option, page := 1)
  }

  /** `handlePageChange`: only the page moves. */
  function HandlePageChange(p: Params, newPage: int): (r: Params)
    ensures r.page == newPage
    ensures r.search == p.search && r.year == p.year && r.kind == p.kind
  {
    p.(page := newPage)
  }

  /** One interaction. A click reaches `handlePageChange` only through a
      rendered button. */
  function Handle(p: Params, input: Input): (r: Params)
    ensures input.SearchTyped? ==> r.search == input.text && r.year == p.year && r.kind == p.kind
    ensures input.YearTyped? ==> r.year == input.text && r.search == p.search && r.kind == p.kind
    ensures input.TypeSelected? ==> r.kind == input.option && r.search == p.search && r.year == p.year
    ensures !input.Clicked? ==> r.page == 1
    ensures input.Clicked? ==> r.search == p.search && r.year == p.year && r.kind == p.kind
    ensures input.Clicked? && Rendered(input.button, p.page, input.totalResults) ==> r.page == Target(input.button, p.page)
    ensures input.Clicked? && !Rendered(input.button, p.page, input.totalResults) ==> r == p
    ensures p.page >= 1 ==> r.page >= 1
    ensures input.Clicked? && 1 <= p.page <= TotalPages(input.totalResults) ==> 1 <= r.page <= TotalPages(input.totalResults)
  {
    match input
    case SearchTyped(text) => HandleSearchChange(p, text)
    case YearTyped(text) => HandleYearChange(p, text)
    case TypeSelected(option) => HandleTypeChange(p, option)
    case Clicked(b, totalResults) =>
      if Rendered(b, p.page, totalResults) then
        assert p.page >= 1 ==>
          Target(b, p.page) >= 1 && (p.page <= TotalPages(totalResults) ==> Target(b, p.page) <= TotalPages(totalResults)) by {
          if p.page >= 1 {
            ClickTargetInRange(b, p.page, totalResults);
          }
        }
        HandlePageChange(p, Target(b, p.page))
      else p
  }

  /** The state after a sequence of interactions. */
  function HandleAll(p: Params, inputs: seq<Input>): Params
    decreases |inputs|
  {
    if |inputs| == 0 then p else Handle(HandleAll(p, inputs[..|inputs| - 1]), inputs[|inputs| - 1])
  }

  /** Whatever the user does, the page never drops below 1. */
  lemma {:induction false} PageStaysPositive(p: Params, inputs: seq<Input>)
    requires p.page >= 1
    ensures HandleAll(p, inputs).page >= 1
    decreases |inputs|
  {
    if |inputs| > 0 {
      PageStaysPositive(p, inputs[..|inputs| - 1]);
    }
  }

  // ---------------------------------------------------------------------
  // Validation and the fetch gate
  // ---------------------------------------------------------------------

  const SearchRequired := "Search is required."
  const InvalidYear := "Please enter a valid 4-digit year or leave blank."

  /** The search warning: set exactly when the text is nothing but whitespace. */
  function SearchWarning(search: string): (w: string)
    ensures w != "" <==> Text.AllWhitespace(search)
    ensures w == "" || w == SearchRequired
  {
    if Text.Trim(search) == "" then SearchRequired else ""
  }

  /** The year warning: set exactly when the untrimmed text is non-empty and
      is not four ASCII digits. */
  function YearWarning(year: string): (w: string)
    ensures w != "" <==> year != "" && !Text.IsFourDigits(year)
    ensures w == "" || w == InvalidYear
  {
    if year != "" && !Text.IsFourDigits(year) then InvalidYear else ""
  }

  /** Surrounding whitespace is not forgiven in a year, and nothing but a
      four-digit numeral or the empty string passes. */
  lemma YearWarningExamples()
    ensures YearWarning(" 2021") != "" && YearWarning("2021 ") != ""
    ensures YearWarning("2021") == "" && YearWarning("") == ""
    ensures YearWarning("20") != "" && YearWarning("20x1") != ""
  {
    assert !Text.IsDigit(" 2021"[0]);
    assert !Text.IsDigit("20x1"[2]);
  }

  /** The two warnings as state. */
  datatype Warnings = Warnings(search: string, year: string)

  /** The warnings the current parameters call for. */
  function FreshWarnings(p: Params): Warnings {
    Warnings(SearchWarning(p.search), YearWarning(p.year))
  }

  /** What one run of the effect does: it sets the warnings the parameters
      call for, and arms a timer that will dispatch `fetchMovies` only if the
      trimmed search is non-empty and the warnings it READ, those of the
      render it runs in, were both empty. */
  datatype EffectRun = EffectRun(warnings: Warnings, dispatch: Option<FetchArgs>)

  function RunEffect(p: Params, shown: Warnings): (e: EffectRun)
    ensures e.warnings == FreshWarnings(p)
    ensures e.dispatch.Some? <==> Text.Trim(p.search) != "" && shown.search == "" && shown.year == ""
    ensures e.dispatch.Some? ==> e.dispatch.value == FetchArgs(Text.Trim(p.search), Text.Trim(p.year), p.kind, p.page)
  {
    var canFetch := Text.Trim(p.search) != "" && shown.search == "" && shown.year == "";
    EffectRun(
      FreshWarnings(p),
      if canFetch then Some(FetchArgs(Text.Trim(p.search), Text.Trim(p.year), p.kind, p.page)) else None)
  }

  /** The effect run whose timer survives once the parameters stop changing.
      If the run changed a warning, React renders again and the effect runs
      again (its dependencies include both warnings), clearing the first
      run's timer; the second run changes nothing and so is final. */
  function SettledRun(p: Params, shown: Warnings): (e: EffectRun)
    ensures e.warnings == FreshWarnings(p)
    ensures e.dispatch.Some? <==> Text.Trim(p.search) != "" && YearWarning(p.year) == ""
    ensures e.dispatch.Some? ==>
              e.dispatch.value == FetchArgs(Text.Trim(p.search), p.year, p.kind, p.page)
  {
    var first := RunEffect(p, shown);
    var e := if first.warnings == shown then first else RunEffect(p, first.warnings);
    assert e.dispatch.Some? ==> Text.Trim(p.year) == p.year by {
      if e.dispatch.Some? {
        ValidYearIsTrimmed(p.year);
      }
    }
    e
  }

  /** A year that passes validation has no surrounding whitespace, so the
      dispatched `year.trim()` is the year as typed. */
  lemma ValidYearIsTrimmed(year: string)
    requires YearWarning(year) == ""
    ensures Text.Trim(year) == year
  {
    if year != "" {
      assert !Text.IsWhitespace(year[0]) && !Text.IsWhitespace(year[|year| - 1]);
    }
    Text.TrimUntouched(year);
  }

  /** The gate reads the warnings of the render it runs in, not the ones it
      has just computed: right after a valid year is edited into an invalid
      one, that run's timer would dispatch the invalid year. Only the re-run
      the warning change causes, which clears that timer, keeps the request
      from going out. */
  lemma StaleWarningsGate(p: Params)
    requires Text.Trim(p.search) != "" && YearWarning(p.year) != ""
    ensures RunEffect(p, Warnings("", "")).dispatch == Some(FetchArgs(Text.Trim(p.search), Text.Trim(p.year), p.kind, p.page))
    ensures SettledRun(p, Warnings("", "")).dispatch.None?
  {
  }

  /** The first render fetches page 1 of "Pokemon" with no filters. */
  lemma FirstRenderFetchesDefault()
    ensures SettledRun(InitialParams, Warnings("", "")).dispatch == Some(FetchArgs("Pokemon", "", "", 1))
  {
    var search := InitialParams.search;
    assert !Text.IsWhitespace(search[0]) && !Text.IsWhitespace(search[|search| - 1]);
    Text.TrimUntouched(search);
    assert YearWarning("") == "";
  }
}
