/** The Todo API client (public/clients/todo.js). Each operation is a pure
    function from its arguments, the signals' state and what the network
    delivered, to the request it issued and either the events it dispatched
    or the error it threw. `fetch`, `response.json()` and `dispatchEvent`
    are thereby turned into inputs and outputs. */
module TodosClient {
  import opened Wrappers
  import opened Text
  import opened DateTime
  import opened Json
  import opened TodoSchema
  import opened Signals

  /** A client keeps nothing but the signal of its owner's lifetime. */
  datatype Client = Client(signal: Signal)

  // ---------------------------------------------------------------------------
  // Requests
  // ---------------------------------------------------------------------------

  datatype Method = GET | POST | PUT | DELETE

  /** A route of the `todos` resource. Its path text is generated by the
      routing library, so it stays symbolic here. */
  datatype Route = IndexRoute | ShowRoute(id: string) | CreateRoute | UpdateRoute(id: string) | DestroyRoute(id: string)

  /** A name/value entry of a query string or a form, in insertion order. */
  type Param = (string, string)

  /** What the client hands to `fetch`: method, route, query parameters, the
      form body (None when the request has no body) and the signal. */
  datatype Request = Request(verb: Method, route: Route, search: seq<Param>,
                             form: Option<seq<Param>>, signal: Signal)

  /** The names of a parameter list, in order. */
  function Names(params: seq<Param>): (names: seq<string>)
    ensures |names| == |params|
    ensures forall i :: 0 <= i < |params| ==> names[i] == params[i].0
  {
    seq(|params|, i requires 0 <= i < |params| => params[i].0)
  }

  /** The value of the first entry with the given name. */
  function Lookup(params: seq<Param>, name: string): (r: Option<string>)
    ensures r.Some? <==> name in Names(params)
  {
    if |params| == 0 then None
    else if params[0].0 == name then Some(params[0].1)
    else
      assert Names(params) == [params[0].0] + Names(params[1..]);
      Lookup(params[1..], name)
  }

  /** The position of the first entry with the given name: it has that name,
      and no entry before it does. */
  function FirstIndex(params: seq<Param>, name: string): (i: nat)
    requires name in Names(params)
    ensures i < |params| && params[i].0 == name
    ensures name !in Names(params[..i])
  {
    if params[0].0 == name then
      assert params[..0] == [];
      0
    else
      var rest := params[1..];
      assert Names(params) == [params[0].0] + Names(rest);
      var j := FirstIndex(rest, name);
      assert params[..j + 1] == [params[0]] + rest[..j];
      assert Names(params[..j + 1]) == [params[0].0] + Names(rest[..j]);
      j + 1
  }

  /** `Lookup` reads the value of the first entry with the name, and finds
      nothing when no entry has it. */
  lemma {:induction false} LookupFirstMatch(params: seq<Param>, name: string)
    ensures name in Names(params) ==> Lookup(params, name) == Some(params[FirstIndex(params, name)].1)
    ensures name !in Names(params) ==> Lookup(params, name) == None
  {
    if name in Names(params) && params[0].0 != name {
      assert Names(params) == [params[0].0] + Names(params[1..]);
      LookupFirstMatch(params[1..], name);
    }
  }

  /** The names and lookups of a list that starts with a given entry. */
  lemma ConsEntry(entry: Param, rest: seq<Param>)
    ensures Names([entry] + rest) == [entry.0] + Names(rest)
    ensures forall name :: Lookup([entry] + rest, name) == if entry.0 == name then Some(entry.1) else Lookup(rest, name)
  {
    var ps := [entry] + rest;
    assert ps[0] == entry && ps[1..] == rest;
    var names := [entry.0] + Names(rest);
    assert |Names(ps)| == |names|;
    assert forall i :: 0 <= i < |ps| ==> Names(ps)[i] == names[i] by {
      forall i | 0 <= i < |ps| ensures Names(ps)[i] == names[i] {
        if i > 0 {
          assert ps[i] == rest[i - 1];
        }
      }
    }
    forall name
      ensures Lookup(ps, name) == if entry.0 == name then Some(entry.1) else Lookup(rest, name)
    {
      assert Lookup(ps, name) == if ps[0].0 == name then Some(ps[0].1) else Lookup(ps[1..], name);
    }
  }

  // ---------------------------------------------------------------------------
  // list: the query string
  // ---------------------------------------------------------------------------

  /** The options of `list`; None is an absent (or null) option. */
  datatype ListOptions = ListOptions(query: Option<string>, page: Option<int>, perPage: Option<int>)

  const DefaultPage: int := 1
  const DefaultPerPage: int := 10

  /** The search text to send: the query trimmed, when it is present and
      not all whitespace. */
  function SearchText(query: Option<string>): (text: Option<string>)
    ensures text.Some? <==> query.Some? && !IsBlank(query.value)
    ensures text.Some? ==> text.value != "" && !IsJsWhitespace(text.value[0]) && !IsJsWhitespace(text.value[|text.value| - 1])
  {
    if query.Some? && Trim(query.value) != "" then Some(Trim(query.value)) else None
  }

  /** `q` (when there is search text), then `page` and `per_page`,
      defaulting to 1 and 10. */
  function SearchParams(options: ListOptions): (ps: seq<Param>)
    ensures "q" in Names(ps) <==> options.query.Some? && !IsBlank(options.query.value)
    ensures Lookup(ps, "q") == SearchText(options.query)
    ensures Lookup(ps, "page") == Some(IntToString(options.page.GetOr(DefaultPage)))
    ensures Lookup(ps, "per_page") == Some(IntToString(options.perPage.GetOr(DefaultPerPage)))
    ensures Names(ps) == ["q", "page", "per_page"] || Names(ps) == ["page", "per_page"]
  {
    var paging := Paging(IntToString(options.page.GetOr(DefaultPage)), IntToString(options.perPage.GetOr(DefaultPerPage)));
    match SearchText(options.query)
    case Some(q) => ConsEntry(("q", q), paging); [("q", q)] + paging
    case None => paging
  }

  /** The `page` and `per_page` entries, in that order. */
  function Paging(page: string, perPage: string): (ps: seq<Param>)
    ensures Names(ps) == ["page", "per_page"]
    ensures Lookup(ps, "page") == Some(page) && Lookup(ps, "per_page") == Some(perPage)
    ensures Lookup(ps, "q") == None
  {
    var last := [("per_page", perPage)];
    assert Names(last) == ["per_page"];
    ConsEntry(("page", page), last);
    [("page", page)] + last
  }

  // ---------------------------------------------------------------------------
  // update: the form
  // ---------------------------------------------------------------------------

  /** A field of a partial update: left out (`undefined`), `null`, or a string. */
  datatype Nullable = Undefined | Null | Value(text: string)

  /** The partial todo `update` sends. */
  datatype Patch = Patch(title: Option<string>, completedAt: Nullable)

  /** `title` only when it is a non-empty string; `completedAt` whenever it is
      not undefined, with null written as the text "null". */
  function UpdateForm(patch: Patch): (f: seq<Param>)
    ensures "title" in Names(f) <==> patch.title.Some? && patch.title.value != ""
    ensures Lookup(f, "title").Some? ==> Lookup(f, "title") == patch.title
    ensures "completedAt" in Names(f) <==> !patch.completedAt.Undefined?
    ensures patch.completedAt.Null? ==> Lookup(f, "completedAt") == Some("null")
    ensures patch.completedAt.Value? ==> Lookup(f, "completedAt") == Some(patch.completedAt.text)
    ensures Names(f) in [[], ["title"], ["completedAt"], ["title", "completedAt"]]
  {
    var stamp: seq<Param> := match patch.completedAt
      case Undefined => []
      case Null => [("completedAt", "null")]
      case Value(s) => [("completedAt", s)];
    var f := UpdateFormWithStamp(patch.title, stamp);
    assert Names([]) == [];
    if |stamp| == 1 then
      ConsEntry(stamp[0], []);
      assert stamp == [stamp[0]] + [];
      assert Names(stamp) == ["completedAt"];
      assert Names(f) == ["completedAt"] || Names(f) == ["title", "completedAt"];
      f
    else
      assert stamp == [];
      assert Names(f) == [] || Names(f) == ["title"];
      f
  }

  /** The title entry, when there is one, in front of the `completedAt` entries. */
  function UpdateFormWithStamp(title: Option<string>, stamp: seq<Param>): (f: seq<Param>)
    ensures title.Some? && title.value != "" ==> Names(f) == ["title"] + Names(stamp) && Lookup(f, "title") == title
    ensures title.Some? && title.value != "" ==> forall name :: name != "title" ==> Lookup(f, name) == Lookup(stamp, name)
    ensures !(title.Some? && title.value != "") ==> f == stamp
  {
    if title.Some? && title.value != "" then ConsEntry(("title", title.value), stamp); [("title", title.value)] + stamp
    else stamp
  }

  // ---------------------------------------------------------------------------
  // Responses, errors and events
  // ---------------------------------------------------------------------------

  /** What the server sent back: the body as `response.json()` decodes it (None
      when it is not JSON) and the header values as they came, keyed by
      lower-case name as the `Headers` object keeps them. The status is never
      looked at. */
  datatype Response = Response(body: Option<Json>, headers: map<string, string>)

  /** What `fetch` came back with, when the signal did not stop it. */
  datatype Transport = Delivered(response: Response) | NetworkFailure

  /** What a failed call throws. */
  datatype ClientError =
    | AbortError              // the merged signal was aborted
    | NetworkError            // `fetch` rejected
    | SyntaxError             // the body was not JSON
    | TypeError               // `body.data` read on a null body
    | Invalid(error: ValidationError)  // the schema rejected the body

  /** The typed events a client dispatches. */
  datatype Event =
    | TodosFetched(todos: seq<Todo>)
    | TodosCreated(todo: Todo)
    | TodoFetched(todo: Todo)
    | TodoUpdated(todo: Todo)
    | TodoDeleted(id: string)
    | PaginationInfo(count: Number, pages: Number)

  /** The event type name each event is dispatched under. */
  function EventType(e: Event): string {
    match e
    case TodosFetched(_) => "todos:fetched"
    case TodosCreated(_) => "todos:created"
    case TodoFetched(_) => "todo:fetched"
    case TodoUpdated(_) => "todo:updated"
    case TodoDeleted(_) => "todo:deleted"
    case PaginationInfo(_, _) => "pagination:info"
  }

  /** One call: the request issued, and the events dispatched (in order) or the
      error thrown. */
  datatype Call = Call(request: Request, outcome: Result<seq<Event>, ClientError>)

  const TotalCountHeader: string := "X-Total-Count"
  const TotalPagesHeader: string := "X-Total-Pages"

  /** A header value as `Headers` keeps it: HTTP whitespace cut from both
      ends, and nothing else changed. */
  function NormaliseValue(s: string): (r: string)
    ensures r == "" <==> AllSpace(HttpSpaces, s)
    ensures r != "" ==> !IsHttpWhitespace(r[0]) && !IsHttpWhitespace(r[|r| - 1])
    ensures exists i, j :: 0 <= i <= j <= |s| && AllSpace(HttpSpaces, s[..i]) && AllSpace(HttpSpaces, s[j..]) && r == s[i..j]
  {
    StripSpace(HttpSpaces, s)
  }

  /** `Headers` keeps every name in lower case. */
  predicate KeyedByLowerCase(headers: map<string, string>) {
    forall k :: k in headers ==> AsciiLower(k) == k
  }

  /** `headers.get(name)`: names match without regard to ASCII case, and the
      value comes back normalised. */
  function GetHeader(headers: map<string, string>, name: string): (r: Option<string>)
    ensures r.Some? ==> exists k :: k in headers && SameIgnoringAsciiCase(k, name) && r.value == NormaliseValue(headers[k])
    ensures KeyedByLowerCase(headers) ==> (r.Some? <==> exists k :: k in headers && SameIgnoringAsciiCase(k, name))
  {
    var key := AsciiLower(name);
    AsciiLowerIdempotent(name);
    AsciiLowerIgnoresCase(key, name);
    forall k | k in headers && SameIgnoringAsciiCase(k, name)
      ensures KeyedByLowerCase(headers) ==> key in headers
    {
      AsciiLowerIgnoresCase(k, name);
    }
    if key in headers then Some(NormaliseValue(headers[key])) else None
  }

  /** `headers.get(name) || "0"`: a missing or empty value counts as "0". */
  function OrZero(text: Option<string>): string {
    if text.None? || text.value == "" then "0" else text.value
  }

  /** `parseInt(headers.get(name) || "0", 10)`. */
  function HeaderTotal(headers: map<string, string>, name: string): (n: Number)
    ensures GetHeader(headers, name) == None || GetHeader(headers, name) == Some("") ==> n == Finite(0)
    ensures AsciiLower(name) in headers && AllSpace(HttpSpaces, headers[AsciiLower(name)]) ==> n == Finite(0)
    ensures forall v: nat :: GetHeader(headers, name) == Some(IntToString(v)) ==> n == Finite(v)
    ensures forall v: nat :: AsciiLower(name) in headers && headers[AsciiLower(name)] == IntToString(v) ==> n == Finite(v)
    ensures GetHeader(headers, name).Some? && GetHeader(headers, name).value != "" && IsBlank(GetHeader(headers, name).value)
      ==> n == NaN
    ensures GetHeader(headers, name).Some? && GetHeader(headers, name).value != "" && NotNumeric(GetHeader(headers, name).value[0])
      ==> n == NaN
  {
    var text := GetHeader(headers, name);
    OrZeroOfNumeral(0);
    forall v: nat | text == Some(IntToString(v)) ensures ParseInt(OrZero(text)) == Finite(v) {
      OrZeroOfNumeral(v);
    }
    forall v: nat | AsciiLower(name) in headers && headers[AsciiLower(name)] == IntToString(v)
      ensures text == Some(IntToString(v))
    {
      NumeralIsNormalised(v);
    }
    ParseInt(OrZero(text))
  }

  /** `parseInt` reads a numeral back whether it came as a header or as the
      fallback "0". */
  lemma OrZeroOfNumeral(v: nat)
    ensures ParseInt(OrZero(Some(IntToString(v)))) == Finite(v)
    ensures ParseInt(OrZero(None)) == Finite(0)
  {
    ParseIntOfIntToString(v, "");
    assert IntToString(v) + "" == IntToString(v);
    ParseIntOfIntToString(0, "");
    assert IntToString(0) + "" == "0";
  }

  /** A server writes a number without surrounding whitespace, so `Headers`
      keeps it as it is. */
  lemma NumeralIsNormalised(v: nat)
    ensures NormaliseValue(IntToString(v)) == IntToString(v)
  {
    StripKeepsTrimmed(HttpSpaces, IntToString(v));
  }

  /** `await response.json()`. */
  function ReadJson(response: Response): Result<Json, ClientError> {
    if response.body.Some? then Success(response.body.value) else Failure(SyntaxError)
  }

  function AsInvalid(e: ValidationError): ClientError {
    Invalid(e)
  }

  /** Every todo an event carries was accepted by the schema. */
  predicate CarriesValidTodos(e: Event) {
    match e
    case TodosFetched(todos) => forall i :: 0 <= i < |todos| ==> ValidTodo(todos[i])
    case TodosCreated(todo) => ValidTodo(todo)
    case TodoFetched(todo) => ValidTodo(todo)
    case TodoUpdated(todo) => ValidTodo(todo)
    case _ => true
  }

  /** What the client does with a response, by route: validate the body (the
      array for index, `body.data` for create, nothing for destroy) and only
      then dispatch. Whatever is dispatched carries only valid todos; a body
      that is not JSON fails every route that reads it; destroy always
      dispatches. */
  function Receive(route: Route, response: Response): (r: Result<seq<Event>, ClientError>)
    ensures r.Success? ==> |r.value| > 0 && forall i :: 0 <= i < |r.value| ==> CarriesValidTodos(r.value[i])
    ensures !route.DestroyRoute? && response.body.None? ==> r == Failure(SyntaxError)
    ensures route.DestroyRoute? ==> r.Success?
  {
    match route
    case IndexRoute => ReceivePage(response)
    case ShowRoute(_) => ReceiveTodo(response, false)
    case CreateRoute => ReceiveCreated(response)
    case UpdateRoute(_) => ReceiveTodo(response, true)
    case DestroyRoute(id) => Success([TodoDeleted(id)])
  }

  /** list: the body must be an array of valid todos; they are dispatched
      before the pagination totals. */
  function ReceivePage(response: Response): (r: Result<seq<Event>, ClientError>)
    ensures r.Success? ==> |r.value| == 2 && CarriesValidTodos(r.value[0]) && CarriesValidTodos(r.value[1])
    ensures response.body.None? ==> r == Failure(SyntaxError)
  {
    var body :- ReadJson(response);
    var todos :- ParseArray(Some(body)).MapFailure(AsInvalid);
    Success([TodosFetched(todos),
             PaginationInfo(HeaderTotal(response.headers, TotalCountHeader),
                            HeaderTotal(response.headers, TotalPagesHeader))])
  }

  /** show and update: the body must be a valid todo. */
  function ReceiveTodo(response: Response, updated: bool): (r: Result<seq<Event>, ClientError>)
    ensures r.Success? ==> |r.value| == 1 && CarriesValidTodos(r.value[0])
    ensures response.body.None? ==> r == Failure(SyntaxError)
  {
    var body :- ReadJson(response);
    var todo :- Parse(Some(body)).MapFailure(AsInvalid);
    Success([if updated then TodoUpdated(todo) else TodoFetched(todo)])
  }

  /** create: reading `data` from a null body throws; otherwise the `data`
      member must be a valid todo. */
  function ReceiveCreated(response: Response): (r: Result<seq<Event>, ClientError>)
    ensures r.Success? ==> |r.value| == 1 && CarriesValidTodos(r.value[0])
    ensures response.body.None? ==> r == Failure(SyntaxError)
  {
    var body :- ReadJson(response);
    if body.JNull? then Failure(TypeError)
    else
      var todo :- Parse(Member(body, "data")).MapFailure(AsInvalid);
      Success([TodosCreated(todo)])
  }

  /** Issues the request: an aborted signal makes `fetch` reject with an
      AbortError whatever the network would have done; otherwise the response
      is handled by route. */
  function Perform(request: Request, transport: Transport): (call: Call)
    ensures call.request == request
    ensures Aborted(request.signal) ==> call.outcome == Failure(AbortError)
    ensures call.outcome.Success? ==> transport.Delivered? && !Aborted(request.signal)
  {
    if Aborted(request.signal) then Call(request, Failure(AbortError))
    else
      match transport
      case NetworkFailure => Call(request, Failure(NetworkError))
      case Delivered(response) => Call(request, Receive(request.route, response))
  }

  // ---------------------------------------------------------------------------
  // Operations
  // ---------------------------------------------------------------------------

  /** The signal every call uses: the client's own, merged with the caller's. */
  predicate SignalOfCall(client: Client, caller: Option<Signal>, call: Call) {
    && (Aborted(call.request.signal) <==> Aborted(client.signal) || (caller.Some? && Aborted(caller.value)))
    && (caller.None? ==> call.request.signal == client.signal)
  }

  /** `list(options, signal)`: GET the index with the query string. */
  function List(client: Client, options: ListOptions, caller: Option<Signal>, transport: Transport): (call: Call)
    ensures SignalOfCall(client, caller, call)
    ensures call.request.verb == GET && call.request.route == IndexRoute && call.request.form.None?
    ensures call.request.search == SearchParams(options)
  {
    Perform(Request(GET, IndexRoute, SearchParams(options), None, Merge(client.signal, caller)), transport)
  }

  /** `show(id, signal)`: GET one todo. */
  function Show(client: Client, id: string, caller: Option<Signal>, transport: Transport): (call: Call)
    ensures SignalOfCall(client, caller, call)
    ensures call.request.verb == GET && call.request.route == ShowRoute(id)
    ensures call.request.search == [] && call.request.form.None?
  {
    Perform(Request(GET, ShowRoute(id), [], None, Merge(client.signal, caller)), transport)
  }

  /** `create(title, signal)`: POST a form holding just the title. */
  function Create(client: Client, title: string, caller: Option<Signal>, transport: Transport): (call: Call)
    ensures SignalOfCall(client, caller, call)
    ensures call.request.verb == POST && call.request.route == CreateRoute
    ensures call.request.form == Some([("title", title)])
  {
    Perform(Request(POST, CreateRoute, [], Some([("title", title)]), Merge(client.signal, caller)), transport)
  }

  /** `update(id, data, signal)`: PUT the partial todo as a form. */
  function Update(client: Client, id: string, patch: Patch, caller: Option<Signal>, transport: Transport): (call: Call)
    ensures SignalOfCall(client, caller, call)
    ensures call.request.verb == PUT && call.request.route == UpdateRoute(id)
    ensures call.request.form == Some(UpdateForm(patch))
  {
    Perform(Request(PUT, UpdateRoute(id), [], Some(UpdateForm(patch)), Merge(client.signal, caller)), transport)
  }

  /** `destroy(id, signal)`: DELETE one todo; the body is never read. */
  function Destroy(client: Client, id: string, caller: Option<Signal>, transport: Transport): (call: Call)
    ensures SignalOfCall(client, caller, call)
    ensures call.request.verb == DELETE && call.request.route == DestroyRoute(id)
    ensures call.request.form.None?
  {
    Perform(Request(DELETE, DestroyRoute(id), [], None, Merge(client.signal, caller)), transport)
  }

  /** `uncomplete(id, signal)`: an update clearing `completedAt`. */
  function Uncomplete(client: Client, id: string, caller: Option<Signal>, transport: Transport): (call: Call)
    ensures SignalOfCall(client, caller, call)
    ensures call.request.verb == PUT && call.request.route == UpdateRoute(id)
    ensures call.request.form == Some([("completedAt", "null")])
  {
    assert UpdateForm(Patch(None, Null)) == [("completedAt", "null")];
    Update(client, id, Patch(None, Null), caller, transport)
  }

  /** `complete(id, signal)`: an update setting `completedAt` to the clock's
      reading `now`, written by `toISOString`. */
  function Complete(client: Client, id: string, now: Instant, caller: Option<Signal>, transport: Transport): (call: Call)
    requires ValidInstant(now)
    ensures SignalOfCall(client, caller, call)
    ensures call.request.verb == PUT && call.request.route == UpdateRoute(id)
    ensures call.request.form == Some([("completedAt", ToIsoString(now))])
  {
    assert UpdateForm(Patch(None, Value(ToIsoString(now)))) == [("completedAt", ToIsoString(now))];
    Update(client, id, Patch(None, Value(ToIsoString(now))), caller, transport)
  }

  /** `fetch(id, q, signal)`: one todo when an id is given, else the list
      filtered by `q` with default paging. */
  function Fetch(client: Client, id: Option<string>, q: Option<string>, caller: Option<Signal>, transport: Transport): (call: Call)
    ensures call.request.route.ShowRoute? <==> id.Some? && id.value != ""
    ensures call.request.route.ShowRoute? ==> call.request.route.id == id.value
    ensures !call.request.route.ShowRoute? ==> call.request.route == IndexRoute && call.request.search == SearchParams(ListOptions(q, None, None))
    ensures SignalOfCall(client, caller, call)
  {
    if id.Some? && id.value != "" then Show(client, id.value, caller, transport)
    else List(client, ListOptions(q, None, None), caller, transport)
  }
}
