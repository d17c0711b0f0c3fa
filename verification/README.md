# Todo API client — a Dafny model

This project models the browser-side client of a small Todo application.

- **`TodosClient`** (public/clients/todo.js) wraps the `todos` REST resource:
  - `fetch`, `list`, `show`, `create`, `update`, `destroy`, `complete` and `uncomplete` each build a request;
  - each call ties itself to the client's lifetime signal and to an optional per-call signal with `AbortSignal.any`;
  - each call except `destroy` checks the response body against the schema (`destroy` never reads the body);
  - only then does it dispatch typed events (`todos:fetched`, `pagination:info`, `todos:created`, `todo:fetched`, `todo:updated`, `todo:deleted`).
- **`TodoSchema`** (public/todo.js) is the validator. A todo has:
  - a UUID `id`;
  - a `title` of 1 to 255 UTF-16 code units, so a character outside the Basic Multilingual Plane counts twice;
  - a nullable date-time `completedAt`;
  - date-time `createdAt` and `updatedAt`.

Each client operation is a pure function. It takes three inputs:

- the operation's arguments;
- the state of the signals;
- what the network delivered (`Transport`): a `Response`, or a network failure.

It returns a `Call`, which holds two things:

- the `Request` it issued: method, symbolic route, query parameters, form entries and signal;
- either the events it dispatched, in order, or the error it threw (`ClientError`).

The modules follow the program:

| file | module | what it holds |
|---|---|---|
| wrappers.dfy | `Wrappers` | `Option` and `Result` |
| text.dfy | `Text` | The JavaScript string and number operations the client relies on: `trim` and the whitespace it strips, the trimming of HTTP whitespace that `Headers` applies to values, UTF-16 length, ASCII lower-casing of header names, `Number.prototype.toString` on integers, `parseInt(s, 10)`. Also the textual UUID shape of section 4 of RFC 9562. |
| datetime.dfy | `DateTime` | The `date-time` production of section 5.6 of RFC 3339, and the text `Date.prototype.toISOString` writes |
| json.dfy | `Json` | A decoded JSON value and property access |
| todo.dfy | `TodoSchema` | The `Todo` record, the schema's `parse` and `array().parse` with issue paths, and the JSON a server sends for a todo |
| signals.dfy | `Signals` | `AbortSignal`s, `AbortController.abort` and `AbortSignal.any` |
| client.dfy | `TodosClient` | Requests, responses, events and the client's operations |
| client_properties.dfy | `ClientProperties` | What the client promises about the requests it builds, cancellation and dispatching |

## Model

| member | source | states |
|---|---|---|
| `Text.Trim` | public/clients/todo.js:62 | The result is empty exactly when the text is all whitespace. Otherwise it neither starts nor ends with whitespace. It is a slice of the input with only whitespace cut from either end. |
| `Text.TrimIdempotent` | public/clients/todo.js:62 | Trimming twice is the same as trimming once. |
| `Text.Utf16Length` | public/todo.js:6 | A title's length in UTF-16 code units lies between its code-point count and twice that. It equals the code-point count when every character is in the Basic Multilingual Plane. |
| `Text.NatToString` | public/clients/todo.js:63-64 | The decimal text of a number is all digits, denotes that number and has no leading zero. |
| `Text.IntToString` | public/clients/todo.js:63-64 | `toString` of an integer is a minus sign exactly for negatives, followed by the decimal digits of its magnitude with no leading zero. It always ends in a digit. |
| `Text.AsciiLower` | public/clients/todo.js:76-77 | Lower-casing a header name keeps its length and leaves no ASCII capital. Each capital becomes its small letter, and every other character stays as it was. |
| `Text.AsciiLowerIgnoresCase` | public/clients/todo.js:76-77 | Two names lower-case to the same text exactly when they differ only in the case of ASCII letters, so either spelling finds the same header. |
| `Text.ParseInt` | public/clients/todo.js:76-77 | `parseInt` of blank text, or of text whose first character is neither whitespace, a sign nor a digit, is NaN. A string of digits reads as the number it denotes. |
| `Text.ParseIntSkipsWhitespace` | public/clients/todo.js:76-77 | Whitespace in front of the text never changes what `parseInt` reads. |
| `Text.ParseIntSign` | public/clients/todo.js:76-77 | In front of digits (or nothing), a `+` changes nothing and a `-` negates the number read; NaN stays NaN. |
| `Text.ParseIntOfIntToString` | public/clients/todo.js:76-77 | `parseInt` reads back the decimal text `toString` wrote for any integer, whatever non-digit text follows it. |
| `Text.HyphenatedHexIsUuid` | public/todo.js:4 | 32 hex digits hyphenated 8-4-4-4-12 form a UUID string, and removing the hyphens gives the digits back. |
| `Text.UuidIsHyphenatedHex` | public/todo.js:4 | Every UUID string is 32 hex digits with hyphens put back, so the two forms are in one-to-one correspondence. |
| `DateTime.IsoStringIsDateTime` | public/clients/todo.js:186 | The completion time `complete` sends is an RFC 3339 date-time exactly when its year lies in 0..9999. Its date and time fields then read back as the clock's reading. |
| `DateTime.ToIsoString` | public/clients/todo.js:186 | `toISOString` writes 24 characters for years 0..9999 and 27, starting with a sign, for other years. It always ends in `Z`, with the `T` and the `.` before the milliseconds in fixed places from the end. |
| `TodoSchema.KeyIssues` | public/todo.js:3-11 | A schema key is reported exactly when its value breaks that key's constraint, and nothing else is reported. |
| `TodoSchema.Decode` | public/todo.js:3-11 | The decoded todo's fields encode back to exactly the object's values under the schema keys. |
| `TodoSchema.ValidTodoIffFieldsAccepted` | public/todo.js:3-11 | A record satisfies the schema exactly when each field's JSON encoding passes its key's constraint. |
| `TodoSchema.KeyIssuesEmptyIffConforms` | public/todo.js:3-11 | No issues are found exactly when every key's constraint holds. |
| `TodoSchema.Parse` | public/todo.js:3-11 | Parsing succeeds exactly when the value is an object that meets every key's constraint. The todo it returns is valid and agrees with the object on every schema key. A failure always carries issues: the empty path when the value is not an object, otherwise exactly the keys whose values fail. |
| `TodoSchema.ParseEach` | public/clients/todo.js:74 | An array parses exactly when every element parses, giving the elements' values in order. Every issue of every failing element is reported under that element's position. |
| `TodoSchema.ParseArray` | public/clients/todo.js:74 | `TodoSchema.array().parse` succeeds exactly on an array of valid todos and returns them in order, each one valid. One bad element fails the whole array, and each of its issues is reported under its index. |
| `TodoSchema.ParseOfToJson` | public/todo.js:3-11 | A todo's own JSON parses exactly when the todo is valid, and then parses back to that todo. |
| `Json.Member` | public/clients/todo.js:121 | `body.data` is undefined on anything that is not an object. On an object it is defined exactly when the object has that key, and it is then the value stored under that key. |
| `TodoSchema.EncodeInjective` | public/todo.js:3-11 | Two todos whose five JSON fields are equal are the same todo, so parsing cannot merge distinct records. |
| `TodoSchema.ParseArrayOfArrayJson` | public/clients/todo.js:74 | An array of todos' JSON parses exactly when every todo is valid, and then gives back the same todos in order. |
| `TodoSchema.ParseIgnoresUnknownKeys` | public/todo.js:3 | Members the schema does not name never change the outcome, because they are stripped. |
| `TodoSchema.ParseByFields` | public/todo.js:3-11 | Any object, with any extra members, whose schema members hold a valid todo's encodings parses to that todo. |
| `TodoSchema.MissingKeyRejected` | public/todo.js:3-11 | Removing any one schema key from a todo's JSON makes parsing fail, with an issue at that key. |
| `TodoSchema.TitleLengthRule` | public/todo.js:6 | Changing only the title, parsing succeeds exactly when the title has 1 to 255 UTF-16 code units. |
| `TodoSchema.IdMustBeUuid` | public/todo.js:4 | Changing only the id, parsing succeeds exactly when the id is a UUID string. |
| `TodoSchema.CompletedAtMustBeDateTime` | public/todo.js:7 | A string `completedAt` is accepted exactly when it is an RFC 3339 date-time. |
| `TodoSchema.OnlyCompletedAtIsNullable` | public/todo.js:7-10 | Setting a key to null is accepted only for `completedAt`, and it then parses as a todo that is not completed. |
| `Signals.AbortingEitherAbortsMerged` | public/clients/todo.js:67-69 | Aborting the controller behind the client's signal or behind the caller's aborts the merged signal. |
| `Signals.Merge` | public/clients/todo.js:67-69 | The merged signal is aborted exactly when the client's or the caller's signal is. It follows the controllers of both. Without a caller's signal it is the client's own. |
| `Signals.AbortController` | public/clients/todo.js:67-69 | After `abort()` a signal is aborted exactly when it already was or it follows that controller, directly or through `AbortSignal.any`. Which controllers it follows is unchanged. |
| `TodosClient.SearchText` | public/clients/todo.js:62 | The search text is sent exactly when the query is present and not all whitespace. What is sent is non-empty and has no whitespace at either end. |
| `TodosClient.Lookup` | public/clients/todo.js:62-64 | A parameter is found exactly when its name is among the entries' names. |
| `TodosClient.LookupFirstMatch` | public/clients/todo.js:62-64 | Reading a parameter gives the value of the first entry with that name (`FirstIndex`: it has the name and no earlier entry does), and nothing when no entry has the name. |
| `TodosClient.GetHeader` | public/clients/todo.js:76-77 | A header found is the normalised value of a name that differs from the asked one only in ASCII case. When every name is kept in lower case, as `Headers` keeps them, a header is found exactly when such a name is present. |
| `TodosClient.NormaliseValue` | public/clients/todo.js:76-77 | A header value keeps everything but the spaces, tabs, CR and LF at its ends. The result is empty exactly when the value is only such characters, and otherwise it starts and ends with something else. |
| `TodosClient.SearchParams` | public/clients/todo.js:58-65 | `q` is sent exactly when the query is not blank, and it is then the search text. `page` and `per_page` are always sent, as the decimal text of the given numbers or of 1 and 10. The order is q, page, per_page. |
| `TodosClient.UpdateForm` | public/clients/todo.js:133-138 | `title` is sent exactly when it is a non-empty string, with its own value. `completedAt` is sent exactly when it is given, with null written "null". Title comes first. |
| `TodosClient.HeaderTotal` | public/clients/todo.js:76-77 | A missing total header, or one whose value is empty or only spaces, tabs, CR and LF, reads as 0. A value that is the decimal text of a natural number reads as that number. A value that after that normalisation is still only whitespace (a no-break space, say), or whose first character `parseInt` can neither skip nor read, is NaN. |
| `TodosClient.Perform` | public/clients/todo.js:71 | An aborted signal makes the call fail with an AbortError whatever the network would have done. A call only succeeds when the request was delivered and not cancelled. |
| `TodosClient.Receive` | public/clients/todo.js:73-80 | Whatever a response makes the client dispatch carries only todos the schema accepts, and there is at least one event. A body that is not JSON fails every route that reads it with a SyntaxError. `destroy` always dispatches. |
| `TodosClient.List` | public/clients/todo.js:58-81 | `list` issues a GET of the index with the query string of its options and no body, under a signal that is aborted exactly when the client's or the caller's is. |
| `TodosClient.Show` | public/clients/todo.js:87-100 | `show` issues a GET of that todo with no query and no body, under the merged signal. |
| `TodosClient.Create` | public/clients/todo.js:106-124 | `create` POSTs a form whose only entry is the title, under the merged signal. |
| `TodosClient.Update` | public/clients/todo.js:132-154 | `update` PUTs the partial todo's form to that todo, under the merged signal. |
| `TodosClient.Destroy` | public/clients/todo.js:160-171 | `destroy` issues a DELETE of that todo with no body, under the merged signal. |
| `TodosClient.Uncomplete` | public/clients/todo.js:177-179 | `uncomplete` PUTs to that todo a form whose only entry is `completedAt=null`, under the merged signal. |
| `TodosClient.Complete` | public/clients/todo.js:185-187 | `complete` PUTs to that todo a form whose only entry is `completedAt` set to the clock's `toISOString` text, under the merged signal. |
| `TodosClient.Fetch` | public/clients/todo.js:44-47 | `fetch` shows the todo exactly when the id is a non-empty string. Otherwise it lists with the query and default paging. Either way it uses the merged signal. |
| `ClientProperties.SearchParamsReadBack` | public/clients/todo.js:62-64 | The `q` sent is the query trimmed, and `parseInt` reads `page` and `per_page` back as the numbers given, or 1 and 10 when none were given. |
| `ClientProperties.SearchTextWhitespaceIrrelevant` | public/clients/todo.js:62 | Whitespace around the query never changes the request, and a blank query is the same as none. |
| `ClientProperties.FetchDelegates` | public/clients/todo.js:44-47 | `fetch` is the very same call as `show(id)` when the id is a non-empty string, and as `list({ query: q })` otherwise: the same request and the same events or error, so everything `show` and `list` promise holds of it. It shows the todo exactly when the id is a non-empty string. Otherwise it lists page 1 of 10, sending `q` exactly when the query is not blank. Either way it uses the merged signal. |
| `ClientProperties.ReadPatch` | public/clients/todo.js:133-138 | Reading a form back, `title` is present exactly when the form has it, and `completedAt` is left out exactly when the form lacks it. |
| `ClientProperties.UpdateFormRoundTrip` | public/clients/todo.js:133-138 | Reading the form back gives the partial todo that was sent, with two exceptions. An empty title is dropped, and a completion time spelled "null" reads as clearing it. |
| `ClientProperties.UncompleteSendsNull` | public/clients/todo.js:177-179 | `uncomplete` PUTs a form whose only entry is `completedAt=null`, which reads back as clearing it. |
| `ClientProperties.CompleteSendsTimestamp` | public/clients/todo.js:185-187 | `complete` PUTs a form whose only entry is `completedAt` set to the clock's ISO text. That text reads back as a completion time, never as null. For years 0..9999 it is an RFC 3339 date-time. |
| `ClientProperties.IsoStringIsNotNull` | public/clients/todo.js:137 | The text `toISOString` writes is never the "null" that `update` uses for clearing. |
| `ClientProperties.AbortedSignalCancelsEveryCall` | public/clients/todo.js:67-71 | If either the client's or the caller's signal is aborted, every operation (`fetch`, `list`, `show`, `create`, `update`, `destroy`, `uncomplete` and `complete`) fails with an AbortError and dispatches nothing. |
| `ClientProperties.AbortingControllerCancelsList` | public/clients/todo.js:67-71 | After aborting the controller behind either signal, a list call is cancelled. |
| `ClientProperties.EventsFollowValidation` | public/clients/todo.js:73-80 | A call succeeds only after it was delivered, not cancelled, and the body passed validation: the array on index, `body.data` on create, the body on show and update. Destroy is the exception and never reads the body. |
| `ClientProperties.ReceiveIndex` | public/clients/todo.js:73-80 | The index response yields events exactly when the body is an array of valid todos, first the todos, then the two totals. Non-JSON gives a SyntaxError, and a bad body gives the validation error. |
| `ClientProperties.ListOutcome` | public/clients/todo.js:71-80 | A list call succeeds exactly when it was delivered, not cancelled and the body is an array of valid todos. It then dispatches `todos:fetched` before `pagination:info`. A body that fails validation gives exactly that validation error. |
| `ClientProperties.BadElementRejectsList` | public/clients/todo.js:74 | One element that fails the schema rejects the whole page, with none of it dispatched, and each of that element's issues is reported under its position. |
| `ClientProperties.PaginationTotals` | public/clients/todo.js:76-77 | The totals read back the numbers the server wrote, and read 0 when the count header is missing. |
| `ClientProperties.ListExample` | public/clients/todo.js:58-80 | Listing "milk" on page 1 of 10 sends `q=milk&page=1&per_page=10`. It dispatches the server's valid todos and then the totals written in the headers. |
| `ClientProperties.ReceiveSingle` | public/clients/todo.js:96-99 | Show and update yield their one event exactly when the body is a valid todo. Non-JSON gives a SyntaxError, and a bad body gives its validation error. |
| `ClientProperties.SingleTodoRoundTrip` | public/clients/todo.js:150-153 | When the server sends back a valid todo's own JSON, show and update dispatch exactly that todo. |
| `ClientProperties.ReceiveCreate` | public/clients/todo.js:120-123 | Create yields its event exactly when the body is non-null JSON whose `data` member is a valid todo. A null body throws a TypeError, non-JSON a SyntaxError, and a bad `data` its validation error. |
| `ClientProperties.CreateReadsData` | public/clients/todo.js:121 | Create validates `body.data`, not the body. A todo wrapped in `data` is dispatched, and the same todo unwrapped is rejected as a whole. |
| `ClientProperties.NoDataMember` | public/clients/todo.js:121 | A todo's own JSON has no `data` member. |
| `ClientProperties.DestroyIgnoresBody` | public/clients/todo.js:165-170 | Once delivered, `destroy` dispatches the deletion of that id whatever the server sent back. A network failure gives a NetworkError. |
| `ClientProperties.EventTypesDistinct` | public/clients/todo.js:10-26 | Each kind of event is dispatched under its own type name. |

## Behaviour of the code worth knowing

- The client never reads the response status. Any response whose body validates is dispatched, even a 4xx or 5xx one, and `destroy` dispatches `todo:deleted` whatever came back. `Response` has no status for this reason.
- The fallback "0" for a pagination total is used only when its header is missing or empty after normalisation. Any other value goes through `parseInt`, so non-numeric text gives NaN, and `HeaderTotal` states that. Values such as "0", "-0" or "0abc" also read as 0, through `parseInt`.
- `page` and `perPage` are not range-checked. Zero or a negative number is sent as it is, and `SearchParams` holds for every integer.

## Left out

- Network I/O (`fetch`) is an input, `Transport`. The state of the signals is taken as it stands during the exchange, so an abort while the request is in flight counts the same as one before it.
- `response.json()` is an input: the decoded body, or None when it is not JSON. JSON text, its parsing and numbers beyond their mathematical value are not modelled.
- The `EventTarget` dispatch is not modelled. Events are returned in dispatch order instead of being delivered to listeners.
- Route paths are symbolic (`Route`), because the routing library that generates them (`routes.js` and `fetch-router`) is not part of this model. `location.href`, URL composition, and the percent-encoding of `URLSearchParams` and `FormData` are left out too: requests carry their entries as name/value pairs.
- TodoSchema.Parse: the string formats are those of the standards. The UUID is the 8-4-4-4-12 hex shape of section 4 of RFC 9562; the date-time is section 5.6 of RFC 3339, with numeric offsets, a leap second and lower-case `t`/`z`. The zod library's own patterns are not part of this model and may differ from these in either direction. They may be narrower, for example by checking version and variant digits, or allowing only `Z` or only upper case. They may also be broader, for example by accepting a time without seconds. Its exact issue list is not modelled either: messages, codes, and possibly several issues per key. The model keeps one issue path per failing key.
- Text.IntToString: `page` and `perPage` are integers. Fractions, NaN, infinities and `-0` in `Number.prototype.toString`, and numbers beyond 2^53, are not modelled.
- TodosClient.HeaderTotal: `parseInt` returns a double. A numeral past 2^53 reads as the nearest double, and one beyond about 1.8e308 reads as Infinity. The model reads every numeral exactly, so its read-back clause holds in JavaScript only up to 2^53.
- Text.ParseInt: the result is an exact integer, not a double, for the same reason: rounding past 2^53 and Infinity are not modelled.
- TodosClient.Perform: a cancelled call always fails with an AbortError. `controller.abort(reason)` makes `fetch` reject with that reason instead, and a signal here carries no reason.
- Text.Utf16Length: Dafny strings hold Unicode scalar values, so a lone surrogate, which a JavaScript string such as the JSON `"\ud800"` can hold, cannot appear in a title. Such a title has length 1 and the schema accepts it; the model cannot express it.
- Argument values JavaScript would reject or coerce are not modelled: a `null` options object (destructuring throws), a truthy non-string query or id, and a non-string `title`.
- TodosClient.GetHeader: a response's headers are a map from name to value, and `Headers` keeps names in lower case (`KeyedByLowerCase`). A map with an upper-case name is not something `Headers` can hold; the model reads such an entry as missing, so its case-insensitive lookup is promised only for maps that keep the invariant. A name sent twice, which `Headers` joins with ", ", is not modelled either.
- The clock that `complete` reads is an input (`now`).
- Concurrency between overlapping calls is not modelled. Each call is modelled on its own, and the client holds no other state.
- The server side is not modelled: the router, the controllers, the storage, and the `resources("api/todos", …)` declaration in `routes.js` that names the routes.
