/** What the Todo API client promises its callers: how it builds requests,
    which signal cancels a call, and that it dispatches only todos the schema
    accepted, in a fixed order. */
module ClientProperties {
  import opened Wrappers
  import opened Text
  import opened DateTime
  import opened Json
  import opened TodoSchema
  import opened Signals
  import opened TodosClient

  // ---------------------------------------------------------------------------
  // The query string of list
  // ---------------------------------------------------------------------------

  /** What the query string says reads back as the options: `q` is the
      query trimmed, and `parseInt` recovers the page and page size (1 and 10
      when they were not given). */
  lemma SearchParamsReadBack(options: ListOptions)
    ensures var ps := SearchParams(options);
      && (Lookup(ps, "q").Some? ==> Lookup(ps, "q").value == Trim(options.query.value))
      && ParseInt(Lookup(ps, "page").value) == Finite(options.page.GetOr(DefaultPage))
      && ParseInt(Lookup(ps, "per_page").value) == Finite(options.perPage.GetOr(DefaultPerPage))
  {
    NumeralReadsBack(options.page.GetOr(DefaultPage));
    NumeralReadsBack(options.perPage.GetOr(DefaultPerPage));
  }

  /** `parseInt` reads back what `toString` wrote. */
  lemma NumeralReadsBack(n: int)
    ensures ParseInt(IntToString(n)) == Finite(n)
  {
    ParseIntOfIntToString(n, "");
    assert IntToString(n) + "" == IntToString(n);
  }

  /** Whitespace around the search text never changes the request, and blank
      search text is the same as none. */
  lemma SearchTextWhitespaceIrrelevant(options: ListOptions, q: string)
    ensures SearchParams(options.(query := Some(q))) == SearchParams(options.(query := Some(Trim(q))))
    ensures IsBlank(q) ==> SearchParams(options.(query := Some(q))) == SearchParams(options.(query := None))
  {
    TrimIdempotent(q);
    assert SearchText(Some(q)) == SearchText(Some(Trim(q)));
  }

  /** `fetch(id, q)` is the `show` call when the id is a non-empty string,
      and otherwise the `list` call for the first page of ten filtered by
      `q`, so everything `show` and `list` promise holds of it. */
  lemma FetchDelegates(client: Client, id: Option<string>, q: Option<string>, caller: Option<Signal>, transport: Transport)
    ensures id.Some? && id.value != "" ==>
      Fetch(client, id, q, caller, transport) == Show(client, id.value, caller, transport)
    ensures !(id.Some? && id.value != "") ==>
      Fetch(client, id, q, caller, transport) == List(client, ListOptions(q, None, None), caller, transport)
    ensures var call := Fetch(client, id, q, caller, transport);
      && (call.request.route.ShowRoute? <==> id.Some? && id.value != "")
      && (call.request.route.ShowRoute? ==> call.request.route.id == id.value)
      && (!call.request.route.ShowRoute? ==>
            && call.request.route == IndexRoute
            && Lookup(call.request.search, "page") == Some("1")
            && Lookup(call.request.search, "per_page") == Some("10")
            && ("q" in Names(call.request.search) <==> q.Some? && !IsBlank(q.value)))
      && SignalOfCall(client, caller, call)
  {
    if id.Some? && id.value != "" {
      assert Fetch(client, id, q, caller, transport) == Show(client, id.value, caller, transport);
    } else {
      var options := ListOptions(q, None, None);
      assert Fetch(client, id, q, caller, transport) == List(client, options, caller, transport);
      SmallNumerals();
    }
  }

  // ---------------------------------------------------------------------------
  // The form of update
  // ---------------------------------------------------------------------------

  /** How a form field reads back into a partial todo: a missing field is
      left out, and the text "null" clears `completedAt`. */
  function ReadPatch(form: seq<Param>): (patch: Patch)
    ensures patch.title.Some? <==> "title" in Names(form)
    ensures patch.completedAt.Undefined? <==> "completedAt" !in Names(form)
  {
    var completedAt := Lookup(form, "completedAt");
    Patch(Lookup(form, "title"),
          if completedAt.None? then Undefined
          else if completedAt.value == "null" then Null
          else Value(completedAt.value))
  }

  /** The form says exactly what the partial todo says, except for an empty
      title (dropped, as if absent) and a completion time spelled "null"
      (read as clearing it). */
  lemma UpdateFormRoundTrip(patch: Patch)
    ensures patch.title != Some("") && patch.completedAt != Value("null") ==>
      ReadPatch(UpdateForm(patch)) == patch
    ensures patch.title == Some("") ==> ReadPatch(UpdateForm(patch)).title == None
    ensures patch.completedAt == Value("null") ==> ReadPatch(UpdateForm(patch)).completedAt == Null
  {
  }

  /** `uncomplete` is a PUT whose form is just `completedAt=null`. */
  lemma UncompleteSendsNull(client: Client, id: string, caller: Option<Signal>, transport: Transport)
    ensures var call := Uncomplete(client, id, caller, transport);
      && call.request.verb == PUT && call.request.route == UpdateRoute(id)
      && call.request.form == Some([("completedAt", "null")])
      && ReadPatch(call.request.form.value) == Patch(None, Null)
  {
    UpdateFormRoundTrip(Patch(None, Null));
  }

  /** `complete` is a PUT whose form is just `completedAt` set to the clock's
      reading, which is never "null" and, for years 0 to 9999, is a date-time
      the schema accepts naming that same instant. */
  lemma CompleteSendsTimestamp(client: Client, id: string, now: Instant, caller: Option<Signal>, transport: Transport)
    requires ValidInstant(now)
    ensures var call := Complete(client, id, now, caller, transport);
      && call.request.verb == PUT && call.request.route == UpdateRoute(id)
      && call.request.form == Some([("completedAt", ToIsoString(now))])
      && ReadPatch(call.request.form.value) == Patch(None, Value(ToIsoString(now)))
      && (0 <= now.year <= 9999 ==> IsDateTime(ToIsoString(now)))
  {
    var stamp := ToIsoString(now);
    IsoStringIsNotNull(now);
    UpdateFormRoundTrip(Patch(None, Value(stamp)));
    IsoStringIsDateTime(now);
  }

  /** The completion time `complete` sends can never be mistaken for null. */
  lemma IsoStringIsNotNull(now: Instant)
    requires ValidInstant(now)
    ensures ToIsoString(now) != "null"
  {
    assert Pow10(2) == 100 && Pow10(3) == 1000 && Pow10(4) == 10000 && Pow10(6) == 1000000;
    assert |YearText(now.year)| >= 4;
    assert |DateText(now)| >= 10;
    assert |ToIsoString(now)| >= 20;
  }

  // ---------------------------------------------------------------------------
  // Cancellation
  // ---------------------------------------------------------------------------

  /** Every call is cancelled, with an AbortError and no events, when either
      the client's signal or the caller's is aborted. */
  lemma AbortedSignalCancelsEveryCall(client: Client, caller: Option<Signal>, transport: Transport,
                                      options: ListOptions, id: string, title: string, patch: Patch,
                                      fetchId: Option<string>, q: Option<string>, now: Instant)
    requires Aborted(client.signal) || (caller.Some? && Aborted(caller.value))
    ensures Fetch(client, fetchId, q, caller, transport).outcome == Failure(AbortError)
    ensures List(client, options, caller, transport).outcome == Failure(AbortError)
    ensures Show(client, id, caller, transport).outcome == Failure(AbortError)
    ensures Create(client, title, caller, transport).outcome == Failure(AbortError)
    ensures Update(client, id, patch, caller, transport).outcome == Failure(AbortError)
    ensures Destroy(client, id, caller, transport).outcome == Failure(AbortError)
    ensures Uncomplete(client, id, caller, transport).outcome == Failure(AbortError)
    ensures ValidInstant(now) ==> Complete(client, id, now, caller, transport).outcome == Failure(AbortError)
  {
  }

  /** Aborting the controller behind the client's signal, or behind the
      caller's, cancels a list call made afterwards. */
  lemma AbortingControllerCancelsList(client: Client, caller: Option<Signal>, controller: nat,
                                      options: ListOptions, transport: Transport)
    requires Follows(client.signal, controller) || (caller.Some? && Follows(caller.value, controller))
    ensures var after := Client(AbortController(client.signal, controller));
      var callerAfter := if caller.Some? then Some(AbortController(caller.value, controller)) else None;
      List(after, options, callerAfter, transport).outcome == Failure(AbortError)
  {
  }

  // ---------------------------------------------------------------------------
  // Responses and events
  // ---------------------------------------------------------------------------

  /** A delivered request that no signal stopped is handled by route. */
  lemma DeliveredOutcome(request: Request, response: Response)
    requires !Aborted(request.signal)
    ensures Perform(request, Delivered(response)).outcome == Receive(request.route, response)
  {
  }

  /** Events are dispatched only once the body has been validated (for every
      route but destroy, which never reads it). A failed call dispatches
      nothing, and a call only succeeds when it was delivered and not
      cancelled. */
  lemma EventsFollowValidation(request: Request, transport: Transport)
    ensures var call := Perform(request, transport);
      call.outcome.Success? ==>
        && !Aborted(request.signal) && transport.Delivered?
        && (!request.route.DestroyRoute? ==> transport.response.body.Some?)
        && (request.route == IndexRoute ==> ParseArray(transport.response.body).Success?)
        && (request.route.ShowRoute? || request.route.UpdateRoute? ==> Parse(transport.response.body).Success?)
        && (request.route == CreateRoute ==>
              !transport.response.body.value.JNull?
              && Parse(Member(transport.response.body.value, "data")).Success?)
  {
    var call := Perform(request, transport);
    if call.outcome.Success? {
      var response := transport.response;
      DeliveredOutcome(request, response);
      match request.route
      case IndexRoute => ReceiveIndex(response);
      case ShowRoute(id) => ReceiveSingle(id, response);
      case UpdateRoute(id) => ReceiveSingle(id, response);
      case CreateRoute => ReceiveCreate(response);
      case DestroyRoute(_) =>
    }
  }

  /** A list call succeeds exactly when the body is an array of valid todos,
      and then dispatches the todos and then the pagination totals. */
  lemma ListOutcome(client: Client, options: ListOptions, caller: Option<Signal>, transport: Transport)
    ensures var call := List(client, options, caller, transport);
      && (call.outcome.Success? <==>
            !Aborted(call.request.signal) && transport.Delivered?
            && transport.response.body.Some? && ParseArray(transport.response.body).Success?)
      && (call.outcome.Success? ==>
            var h := transport.response.headers;
            call.outcome.value ==
              [TodosFetched(ParseArray(transport.response.body).value),
               PaginationInfo(HeaderTotal(h, TotalCountHeader), HeaderTotal(h, TotalPagesHeader))])
      && (!Aborted(call.request.signal) && transport.Delivered? && transport.response.body.Some?
          && ParseArray(transport.response.body).Failure? ==>
            call.outcome == Failure(Invalid(ParseArray(transport.response.body).error)))
  {
    var call := List(client, options, caller, transport);
    if !Aborted(call.request.signal) && transport.Delivered? {
      ReceiveIndex(transport.response);
    }
  }

  /** How the index response is handled: the body must be an array of valid
      todos, and then the todos are dispatched before the pagination totals. */
  lemma ReceiveIndex(response: Response)
    ensures var r := Receive(IndexRoute, response);
      && (r.Success? <==> response.body.Some? && ParseArray(response.body).Success?)
      && (r.Success? ==>
            r.value == [TodosFetched(ParseArray(response.body).value),
                        PaginationInfo(HeaderTotal(response.headers, TotalCountHeader),
                                       HeaderTotal(response.headers, TotalPagesHeader))])
      && (response.body.None? ==> r == Failure(SyntaxError))
      && (response.body.Some? && ParseArray(response.body).Failure? ==>
            r == Failure(Invalid(ParseArray(response.body).error)))
  {
  }

  /** One todo that fails the schema rejects the whole page: nothing is
      dispatched, and each of its issues is reported under its position. */
  lemma BadElementRejectsList(client: Client, options: ListOptions, caller: Option<Signal>,
                              response: Response, i: nat)
    requires !Aborted(Merge(client.signal, caller))
    requires response.body.Some? && response.body.value.JArray?
    requires i < |response.body.value.items|
    requires Parse(Some(response.body.value.items[i])).Failure?
    ensures var call := List(client, options, caller, Delivered(response));
      && call.outcome.Failure? && call.outcome.error.Invalid?
      && forall issue :: issue in Parse(Some(response.body.value.items[i])).error.issues ==>
           [Index(i)] + issue in call.outcome.error.error.issues
  {
    var request := Request(GET, IndexRoute, SearchParams(options), None, Merge(client.signal, caller));
    DeliveredOutcome(request, response);
    ReceiveIndex(response);
  }

  /** The pagination totals read back what the server wrote, and 0 when the
      header is missing or empty. */
  lemma PaginationTotals(headers: map<string, string>, count: nat, pages: nat)
    ensures HeaderTotal(headers - {"x-total-count"}, TotalCountHeader) == Finite(0)
    ensures HeaderTotal(headers["x-total-count" := IntToString(count)], TotalCountHeader) == Finite(count)
    ensures HeaderTotal(headers["x-total-pages" := IntToString(pages)], TotalPagesHeader) == Finite(pages)
  {
    assert AsciiLower(TotalCountHeader) == "x-total-count";
    assert AsciiLower(TotalPagesHeader) == "x-total-pages";
  }

  /** Listing "milk" on page 1 of 10 while the server holds valid todos
      sends `q=milk&page=1&per_page=10` and dispatches the todos, then the
      totals the server wrote. */
  lemma ListExample(todos: seq<Todo>, count: nat, pages: nat)
    requires forall i :: 0 <= i < |todos| ==> ValidTodo(todos[i])
    ensures var response := Response(Some(ArrayJson(todos)),
                                     map["x-total-count" := IntToString(count), "x-total-pages" := IntToString(pages)]);
      var call := List(Client(Source(0, false)), ListOptions(Some("milk"), Some(1), Some(10)), None, Delivered(response));
      && call.request.search == [("q", "milk"), ("page", "1"), ("per_page", "10")]
      && call.outcome == Success([TodosFetched(todos), PaginationInfo(Finite(count), Finite(pages))])
  {
    var headers := map["x-total-count" := IntToString(count), "x-total-pages" := IntToString(pages)];
    var response := Response(Some(ArrayJson(todos)), headers);
    MilkSearch();
    ParseArrayOfArrayJson(todos);
    TotalsOf(count, pages);
    ReceiveIndex(response);
    DeliveredOutcome(Request(GET, IndexRoute, SearchParams(ListOptions(Some("milk"), Some(1), Some(10))), None, Source(0, false)), response);
  }

  lemma MilkSearch()
    ensures SearchParams(ListOptions(Some("milk"), Some(1), Some(10))) == [("q", "milk"), ("page", "1"), ("per_page", "10")]
  {
    var options := ListOptions(Some("milk"), Some(1), Some(10));
    MilkIsTrimmed();
    SmallNumerals();
    assert SearchText(options.query) == Some("milk");
    assert SearchParams(options) == [("q", "milk")] + [("page", "1"), ("per_page", "10")];
  }

  lemma MilkIsTrimmed()
    ensures Trim("milk") == "milk"
  {
    StripKeepsTrimmed(JsSpaces, "milk");
  }

  lemma SmallNumerals()
    ensures IntToString(1) == "1" && IntToString(10) == "10"
  {
  }

  lemma TotalsOf(count: nat, pages: nat)
    ensures var headers := map["x-total-count" := IntToString(count), "x-total-pages" := IntToString(pages)];
      && HeaderTotal(headers, TotalCountHeader) == Finite(count)
      && HeaderTotal(headers, TotalPagesHeader) == Finite(pages)
  {
    var headers := map["x-total-count" := IntToString(count), "x-total-pages" := IntToString(pages)];
    assert AsciiLower(TotalCountHeader) == "x-total-count";
    assert AsciiLower(TotalPagesHeader) == "x-total-pages";
  }

  /** How show and update handle the response: the body must be a valid
      todo, which is then dispatched. */
  lemma ReceiveSingle(id: string, response: Response)
    ensures var r := Receive(ShowRoute(id), response);
      && (r.Success? <==> Parse(response.body).Success?)
      && (r.Success? ==> r.value == [TodoFetched(Parse(response.body).value)])
      && (response.body.None? ==> r == Failure(SyntaxError))
      && (response.body.Some? && Parse(response.body).Failure? ==> r == Failure(Invalid(Parse(response.body).error)))
    ensures var r := Receive(UpdateRoute(id), response);
      && (r.Success? <==> Parse(response.body).Success?)
      && (r.Success? ==> r.value == [TodoUpdated(Parse(response.body).value)])
      && (response.body.None? ==> r == Failure(SyntaxError))
      && (response.body.Some? && Parse(response.body).Failure? ==> r == Failure(Invalid(Parse(response.body).error)))
  {
    ReceiveOne(response, false);
    ReceiveOne(response, true);
  }

  lemma ReceiveOne(response: Response, updated: bool)
    ensures var r := ReceiveTodo(response, updated);
      && (r.Success? <==> Parse(response.body).Success?)
      && (r.Success? ==> r.value == [if updated then TodoUpdated(Parse(response.body).value) else TodoFetched(Parse(response.body).value)])
      && (response.body.Some? && Parse(response.body).Failure? ==> r == Failure(Invalid(Parse(response.body).error)))
  {
  }

  /** A todo's own JSON, sent back by show or update, is dispatched as that
      todo. */
  lemma SingleTodoRoundTrip(client: Client, id: string, patch: Patch, caller: Option<Signal>,
                            t: Todo, headers: map<string, string>)
    requires ValidTodo(t)
    requires !Aborted(Merge(client.signal, caller))
    ensures Show(client, id, caller, Delivered(Response(Some(ToJson(t)), headers))).outcome == Success([TodoFetched(t)])
    ensures Update(client, id, patch, caller, Delivered(Response(Some(ToJson(t)), headers))).outcome == Success([TodoUpdated(t)])
  {
    var signal := Merge(client.signal, caller);
    var response := Response(Some(ToJson(t)), headers);
    DeliveredOutcome(Request(GET, ShowRoute(id), [], None, signal), response);
    DeliveredOutcome(Request(PUT, UpdateRoute(id), [], Some(UpdateForm(patch)), signal), response);
    ReceiveSingle(id, response);
    ParseOfToJson(t);
  }

  /** How create handles the response: a null body throws a TypeError when
      `data` is read from it; otherwise its `data` member must be a valid
      todo, which is then dispatched. */
  lemma ReceiveCreate(response: Response)
    ensures var r := Receive(CreateRoute, response);
      && (r.Success? <==>
            response.body.Some? && !response.body.value.JNull? && Parse(Member(response.body.value, "data")).Success?)
      && (r.Success? ==> r.value == [TodosCreated(Parse(Member(response.body.value, "data")).value)])
      && (response.body.None? ==> r == Failure(SyntaxError))
      && (response.body == Some(JNull) ==> r == Failure(TypeError))
      && (response.body.Some? && !response.body.value.JNull? && Parse(Member(response.body.value, "data")).Failure? ==>
            r == Failure(Invalid(Parse(Member(response.body.value, "data")).error)))
  {
  }

  /** create validates the `data` member of the body, not the body: a todo
      wrapped in `data` is dispatched, and the same todo unwrapped is rejected
      as a whole. */
  lemma CreateReadsData(client: Client, title: string, caller: Option<Signal>, t: Todo, headers: map<string, string>)
    requires ValidTodo(t)
    requires !Aborted(Merge(client.signal, caller))
    ensures Create(client, title, caller, Delivered(Response(Some(JObject(map["data" := ToJson(t)])), headers))).outcome
      == Success([TodosCreated(t)])
    ensures Create(client, title, caller, Delivered(Response(Some(ToJson(t)), headers))).outcome
      == Failure(Invalid(ValidationError([[]])))
  {
    var request := Request(POST, CreateRoute, [], Some([("title", title)]), Merge(client.signal, caller));
    CreateWrapped(request, t, headers);
    CreateBare(request, t, headers);
  }

  lemma CreateWrapped(request: Request, t: Todo, headers: map<string, string>)
    requires ValidTodo(t)
    requires request.route == CreateRoute && !Aborted(request.signal)
    ensures Perform(request, Delivered(Response(Some(JObject(map["data" := ToJson(t)])), headers))).outcome
      == Success([TodosCreated(t)])
  {
    var wrapped := Response(Some(JObject(map["data" := ToJson(t)])), headers);
    DeliveredOutcome(request, wrapped);
    ReceiveCreate(wrapped);
    assert Member(wrapped.body.value, "data") == Some(ToJson(t));
    ParseOfToJson(t);
  }

  lemma CreateBare(request: Request, t: Todo, headers: map<string, string>)
    requires request.route == CreateRoute && !Aborted(request.signal)
    ensures Perform(request, Delivered(Response(Some(ToJson(t)), headers))).outcome
      == Failure(Invalid(ValidationError([[]])))
  {
    var bare := Response(Some(ToJson(t)), headers);
    DeliveredOutcome(request, bare);
    ReceiveCreate(bare);
    NoDataMember(t);
  }

  /** A todo's own JSON has no `data` member. */
  lemma NoDataMember(t: Todo)
    ensures Member(ToJson(t), "data") == None
  {
    ToJsonFields(t);
    assert KeyOf("data").None?;
  }

  /** destroy never reads the body: once the request is delivered it
      dispatches the deletion of that id, whatever came back. */
  lemma DestroyIgnoresBody(client: Client, id: string, caller: Option<Signal>, response: Response)
    requires !Aborted(Merge(client.signal, caller))
    ensures Destroy(client, id, caller, Delivered(response)).outcome == Success([TodoDeleted(id)])
    ensures Destroy(client, id, caller, NetworkFailure).outcome == Failure(NetworkError)
  {
  }

  /** Each kind of event has its own type name. */
  lemma EventTypesDistinct(a: Event, b: Event)
    requires EventType(a) == EventType(b)
    ensures a.TodosFetched? == b.TodosFetched? && a.TodosCreated? == b.TodosCreated?
    ensures a.TodoFetched? == b.TodoFetched? && a.TodoUpdated? == b.TodoUpdated?
    ensures a.TodoDeleted? == b.TodoDeleted? && a.PaginationInfo? == b.PaginationInfo?
  {
  }
}
