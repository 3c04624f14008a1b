/**
 * One picker session end to end: the dialog's handlers feed the page and
 * query subjects, the subjects' emissions are paired and dispatched as
 * requests, responses are appended to the results, and tile events reach
 * the dialog's handlers. Timing is not modelled: every sampled pair is
 * dispatched, and a response may arrive at any point.
 */
module Session {
  import opened Wrappers
  import opened Types
  import opened Bynder
  import opened Picker
  import opened PhotoTile

  /**
   * The dialog state, the page subject's latest value, and whether the
   * search subscription is still open: an error response ends it.
   */
  datatype SessionState = SessionState(view: State, latestPage: Option<nat>, live: bool)

  /** What can happen to an open picker. */
  datatype Event =
    | SearchTermChanged(query: string)
    | SearchTermCleared
    | LoadMoreRequested
    | ResponseArrived(response: HttpResponse)
    | OnTile(photo: BynderPhoto, tileEvent: TileEvent)

  /**
   * What a session hands to the outside: the (term, page) pairs dispatched
   * to the search client (each becomes `Search(config, term, page,
   * ResultsPerPage)`), `onSelect` calls, and source pages opened.
   */
  datatype Output = Output(searches: seq<Sampled>, selections: seq<seq<Asset>>, sourcePagesOpened: seq<BynderPhoto>)

  const NoOutput := Output([], [], [])

  function Combine(a: Output, b: Output): Output {
    Output(a.searches + b.searches, a.selections + b.selections, a.sourcePagesOpened + b.sourcePagesOpened)
  }

  datatype StepResult = StepResult(session: SessionState, output: Output)

  /** The session invariant: the dialog state is valid and the page subject holds the dialog's page. */
  ghost predicate Inv(s: SessionState) {
    Valid(s.view) && s.latestPage == Some(s.view.page)
  }

  /** A handler's transition, with its emissions pushed through the open or closed subscription. */
  function Emit(s: SessionState, t: Transition): StepResult {
    var searches := if s.live then Sample(t.emitted, s.latestPage) else [];
    StepResult(SessionState(t.state, LatestPage(t.emitted, s.latestPage), s.live), Output(searches, [], []))
  }

  /**
   * Mounting: the page subject starts at 1, and subscribing makes the query
   * subject emit its initial empty query, so the first request lists page 1.
   */
  function Mount(): (r: StepResult)
    ensures Inv(r.session) && r.session.live && r.session.view == Initial
    ensures r.output.searches == [Sampled("", 1)]
  {
    InitialIsValid();
    SamplePageThenQuery(1, "", None);
    Emit(SessionState(Initial, None, true), Transition(Initial, [PageEmitted(1), QueryEmitted("")]))
  }

  /** One call from a tile to the dialog. */
  function ApplyCallback(config: BynderConfig, s: SessionState, call: Callback): (r: StepResult)
    ensures r.output.searches == []
    ensures r.session == s.(view := s.view.(cursor := r.session.view.cursor))
    ensures Valid(s.view) ==> Valid(r.session.view)
  {
    match call
    case ForwardKey(code) => StepResult(s.(view := Picker.KeyDown(s.view, code)), NoOutput)
    case SelectPhoto(photo) => StepResult(s, Output([], [Select(config, photo)], []))
    case FocusPhoto(photo) => StepResult(s.(view := UpdateCursor(s.view, photo)), NoOutput)
    case OpenSourcePage(photo) => StepResult(s, Output([], [], [photo]))
  }

  /** The tile's calls, in order. They move only the cursor and never send a request. */
  function ApplyCallbacks(config: BynderConfig, s: SessionState, calls: seq<Callback>): (r: StepResult)
    ensures r.output.searches == []
    ensures r.session == s.(view := s.view.(cursor := r.session.view.cursor))
    ensures Valid(s.view) ==> Valid(r.session.view)
    decreases |calls|
  {
    if |calls| == 0 then StepResult(s, NoOutput)
    else
      var first := ApplyCallback(config, s, calls[0]);
      var rest := ApplyCallbacks(config, first.session, calls[1..]);
      StepResult(rest.session, Combine(first.output, rest.output))
  }

  /**
   * A new search term (or the cleared term, which is the empty one): the
   * results restart at page 1 and, while the subscription is open, exactly
   * that page of the new term is requested.
   */
  function OnSearchTerm(s: SessionState, query: string): (r: StepResult)
    ensures r.session.view.query == query && r.session.view.page == 1 && Photos(r.session.view) == []
    ensures r.session.view == s.view.(query := query, searchResults := [[]], page := 1, cursor := 0)
    ensures r.session.live == s.live && Inv(r.session)
    ensures r.output.searches == (if s.live then [Sampled(query, 1)] else [])
    ensures r.output.selections == [] && r.output.sourcePagesOpened == []
  {
    SamplePageThenQuery(1, query, s.latestPage);
    Emit(s, ChangeQuery(s.view, query))
  }

  /** The next page of the current term: requested while the subscription is open, results kept. */
  function OnLoadMore(s: SessionState): (r: StepResult)
    ensures r.session.view.page == s.view.page + 1 && r.session.view.query == s.view.query
    ensures Photos(r.session.view) == Photos(s.view) && r.session.view.cursor == s.view.cursor
    ensures r.session.view == s.view.(page := s.view.page + 1)
    ensures r.session.live == s.live && (Inv(s) ==> Inv(r.session))
    ensures r.output.searches == (if s.live then [Sampled(s.view.query, s.view.page + 1)] else [])
    ensures r.output.selections == [] && r.output.sourcePagesOpened == []
  {
    SamplePageThenQuery(s.view.page + 1, s.view.query, s.latestPage);
    Emit(s, LoadMore(s.view))
  }

  /**
   * A response to the search subscription. An ok one is appended to the
   * results, whichever term and page it answers; any other ends the
   * subscription; once ended, nothing more arrives.
   */
  function OnResponse(s: SessionState, response: HttpResponse): (r: StepResult)
    ensures r.output == NoOutput
    ensures !s.live ==> r.session == s
    ensures s.live && FetchOutcome(response).Failure? ==> r.session.view == s.view
    ensures s.live && FetchOutcome(response).Success? ==> r.session.view == ResultsArrived(s.view, FetchOutcome(response).value)
    ensures r.session.live <==> s.live && FetchOutcome(response).Success?
    ensures s.live && FetchOutcome(response).Success? ==> Photos(r.session.view) == Photos(s.view) + FetchOutcome(response).value
    ensures r.session.view.query == s.view.query && r.session.view.page == s.view.page
    ensures r.session.latestPage == s.latestPage
    ensures Inv(s) ==> Inv(r.session)
  {
    if !s.live then StepResult(s, NoOutput)
    else
      match FetchOutcome(response)
      case Success(photos) => StepResult(s.(view := ResultsArrived(s.view, photos)), NoOutput)
      case Failure(_) => StepResult(s.(live := false), NoOutput)
  }

  /** Clearing the term: the same as changing it to the empty term. */
  function OnSearchCleared(s: SessionState): (r: StepResult)
    ensures r == OnSearchTerm(s, "")
  {
    SamplePageThenQuery(1, "", s.latestPage);
    Emit(s, ClearQuery(s.view))
  }

  /** One event. */
  function Step(config: BynderConfig, s: SessionState, e: Event): (r: StepResult)
    ensures Inv(s) ==> Inv(r.session)
    ensures e.ResponseArrived? && FetchOutcome(e.response).Failure? ==> r.session.view == s.view
    ensures r.session.live <==> s.live && !(e.ResponseArrived? && FetchOutcome(e.response).Failure?)
    ensures r.output.searches != [] <==> s.live && (e.SearchTermChanged? || e.SearchTermCleared? || e.LoadMoreRequested?)
    ensures r.output.searches != [] ==> r.output.searches == [Sampled(r.session.view.query, r.session.view.page)]
  {
    match e
    case SearchTermChanged(query) => OnSearchTerm(s, query)
    case SearchTermCleared => OnSearchCleared(s)
    case LoadMoreRequested => OnLoadMore(s)
    case ResponseArrived(response) => OnResponse(s, response)
    case OnTile(photo, tileEvent) => ApplyCallbacks(config, s, Handle(photo, tileEvent))
  }

  /** A run of events, with the outputs of all steps in order. */
  function Run(config: BynderConfig, s: SessionState, events: seq<Event>): (r: StepResult)
    ensures Inv(s) ==> Inv(r.session)
    ensures !s.live ==> r.output.searches == [] && !r.session.live
    decreases |events|
  {
    if |events| == 0 then StepResult(s, NoOutput)
    else
      var first := Step(config, s, events[0]);
      var rest := Run(config, first.session, events[1..]);
      StepResult(rest.session, Combine(first.output, rest.output))
  }

  function LoadMores(k: nat): seq<Event> {
    seq(k, _ => LoadMoreRequested)
  }

  /** Pages `from` to `from + count - 1` of one term, in order. */
  function Pages(query: string, from: nat, count: nat): (r: seq<Sampled>)
    ensures |r| == count
    decreases count
  {
    if count == 0 then [] else [Sampled(query, from)] + Pages(query, from + 1, count - 1)
  }

  /** The i-th of the pages is page `from + i`. */
  lemma {:induction false} PagesIndex(query: string, from: nat, count: nat, i: nat)
    requires i < count
    ensures Pages(query, from, count)[i] == Sampled(query, from + i)
    decreases count
  {
    if i > 0 {
      PagesIndex(query, from + 1, count - 1, i - 1);
    }
  }

  /** The first of k load-more events, split off the run. */
  lemma LoadMoreFirst(config: BynderConfig, s: SessionState, k: nat)
    requires k > 0
    ensures var first := OnLoadMore(s);
      var rest := Run(config, first.session, LoadMores(k - 1));
      Run(config, s, LoadMores(k)) == StepResult(rest.session, Combine(first.output, rest.output))
  {
    var events := LoadMores(k);
    assert events[0] == LoadMoreRequested && events[1..] == LoadMores(k - 1);
  }

  /**
   * Scrolling on: k load-more requests on an open session fetch the k pages
   * after the current one, in order, for the current term.
   */
  lemma {:induction false} LoadMoreRun(s: SessionState, k: nat, config: BynderConfig)
    requires s.live
    ensures Run(config, s, LoadMores(k)).output.searches == Pages(s.view.query, s.view.page + 1, k)
    ensures Run(config, s, LoadMores(k)).session.view.query == s.view.query
    ensures Run(config, s, LoadMores(k)).session.view.page == s.view.page + k
    ensures Run(config, s, LoadMores(k)).session.live
    decreases k
  {
    if k > 0 {
      LoadMoreFirst(config, s, k);
      var first := OnLoadMore(s);
      LoadMoreRun(first.session, k - 1, config);
      var rest := Run(config, first.session, LoadMores(k - 1));
      assert rest.output.searches == Pages(s.view.query, s.view.page + 2, k - 1);
      assert first.output.searches == [Sampled(s.view.query, s.view.page + 1)];
    }
  }

  /**
   * Typing a term and then scrolling k times fetches pages 1 to k + 1 of
   * that term, whatever was shown before.
   */
  lemma {:induction false} SearchThenScroll(config: BynderConfig, s: SessionState, query: string, k: nat)
    requires s.live
    ensures Run(config, s, [SearchTermChanged(query)] + LoadMores(k)).output.searches == Pages(query, 1, k + 1)
  {
    var events := [SearchTermChanged(query)] + LoadMores(k);
    assert events[0] == SearchTermChanged(query) && events[1..] == LoadMores(k);
    var first := OnSearchTerm(s, query);
    LoadMoreRun(first.session, k, config);
  }

  /** Each dispatched pair becomes one request: the mount's first pair lists page 1 in creation order. */
  lemma MountRequest(config: BynderConfig)
    ensures var first := Mount().output.searches[0];
      Search(config, first.query, first.page, ResultsPerPage) == FetchList(config, ListOrder, 1, ResultsPerPage)
  {
  }

  /** After a response that is not ok, no event of the session ever sends a request again. */
  lemma ErrorEndsRequests(config: BynderConfig, s: SessionState, response: HttpResponse, later: seq<Event>)
    requires FetchOutcome(response).Failure?
    ensures Run(config, s, [ResponseArrived(response)] + later).output.searches == []
  {
    var events := [ResponseArrived(response)] + later;
    assert events[0] == ResponseArrived(response) && events[1..] == later;
  }

  /**
   * A tile event selects the photo exactly when it is a click or Enter, and
   * opens its source page exactly when it is a credit-line click.
   */
  lemma TileOutput(config: BynderConfig, s: SessionState, photo: BynderPhoto, tileEvent: TileEvent)
    ensures var r := Step(config, s, OnTile(photo, tileEvent));
      && r.output.selections == (if tileEvent.Click? || tileEvent == KeyDown(EnterKey) then [Select(config, photo)] else [])
      && r.output.sourcePagesOpened == (if tileEvent.CreditLineClick? then [photo] else [])
  {
    var calls := Handle(photo, tileEvent);
    var r := ApplyCallbacks(config, s, calls);
    if |calls| == 1 {
      var first := ApplyCallback(config, s, calls[0]);
      assert calls[1..] == [];
      assert ApplyCallbacks(config, first.session, calls[1..]).output == NoOutput;
    } else if |calls| == 2 {
      var first := ApplyCallback(config, s, calls[0]);
      var second := ApplyCallback(config, first.session, calls[1]);
      assert calls[1..][1..] == [];
      assert ApplyCallbacks(config, second.session, calls[1..][1..]).output == NoOutput;
      assert ApplyCallbacks(config, first.session, calls[1..]).output
        == Combine(ApplyCallback(config, first.session, calls[1]).output, NoOutput);
    }
  }

  /** A tile makes at most two calls; their effects, spelled out. */
  lemma ApplyCallbacksShort(config: BynderConfig, s: SessionState, calls: seq<Callback>)
    requires |calls| <= 2
    ensures |calls| == 0 ==> ApplyCallbacks(config, s, calls) == StepResult(s, NoOutput)
    ensures |calls| == 1 ==> ApplyCallbacks(config, s, calls) == ApplyCallback(config, s, calls[0])
    ensures |calls| == 2 ==>
      var first := ApplyCallback(config, s, calls[0]);
      var second := ApplyCallback(config, first.session, calls[1]);
      ApplyCallbacks(config, s, calls) == StepResult(second.session, Combine(first.output, second.output))
  {
    if |calls| == 1 {
      var first := ApplyCallback(config, s, calls[0]);
      assert calls[1..] == [];
      assert Combine(first.output, NoOutput) == first.output;
    } else if |calls| == 2 {
      var first := ApplyCallback(config, s, calls[0]);
      var second := ApplyCallback(config, first.session, calls[1]);
      var rest := calls[1..];
      assert rest[0] == calls[1] && rest[1..] == [];
      assert ApplyCallbacks(config, second.session, rest[1..]) == StepResult(second.session, NoOutput);
      assert Combine(second.output, NoOutput) == second.output;
      assert ApplyCallbacks(config, first.session, rest) == second;
    }
  }

  /**
   * How a tile event moves the cursor: a key press moves it as the dialog's
   * key handler does (Enter included, which then only selects); mouse-down
   * and an active tile move it onto the tile's photo; a click, a credit-line
   * click and an inactive tile leave the dialog as it was. Nothing else of
   * the session changes.
   */
  lemma TileCursor(config: BynderConfig, s: SessionState, photo: BynderPhoto, tileEvent: TileEvent)
    ensures Step(config, s, OnTile(photo, tileEvent)).session == s.(view :=
      match tileEvent
      case KeyDown(code) => Picker.KeyDown(s.view, code)
      case MouseDown => UpdateCursor(s.view, photo)
      case EffectRun(active) => if active then UpdateCursor(s.view, photo) else s.view
      case Click => s.view
      case CreditLineClick => s.view)
  {
    ApplyCallbacksShort(config, s, Handle(photo, tileEvent));
  }
}
