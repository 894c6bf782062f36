# go_httpfake route table and dispatcher, in Dafny

This project models the core of `go_httpfake`, an HTTP test double. A test
registers expectations in a route table: a route key, an HTTP method, the
parameters a request must carry, and a canned status, body and header set.
It then starts a listener whose handler answers each request from the table.

The model has three modules on top of a small `Wrappers` module (`Option`):

- `RouteTable` (`route_table.dfy`) holds the table as a value. `Routes` is a
  map from route key to method to `RequestResponse`. `WithRoute` and
  `WithoutRoute` are the insert and the delete the source performs in place.
  The lemmas show that each touches exactly one (route, method) pair, that no
  route key is ever left with an empty method map, that a second registration
  overwrites the first, and that insert and delete undo each other.
- `Dispatcher` (`dispatcher.dfy`) holds the per-request decision. `RouteKey`
  removes the first `/` of the request target, so the query string stays part
  of the key. `ParamSatisfied` says a required parameter is met when the form
  value or a JSON string at that key equals it. `Dispatch` is the corrected
  response for a request against a table, with a form lookup that sees the
  body form values; `DispatchAsWritten` is `Dispatch` on the request after its body has
  been read. `AddHeaders`, `SetResponse` and `NotFound` are the
  loops and writes that build the response.
- `Fake` (`httpfake.dfy`) holds the class `HttpFake`. It has the fields
  `started`, `hasServer` and `routes`. The methods are `AddRoute`, `DelRoute`,
  `Start` and `Close`, plus `Serve`, the handler that `Start` installs. `Serve`
  walks the required parameters in a loop with early return. It is proved to
  answer exactly `DispatchAsWritten` of the current table: the handler as
  written, whose body read leaves the form lookup without body form values
  (see "## Findings"). Because the parameter check is a universal predicate,
  the answer does not depend on the order in which the map is walked. Four
  scenario methods replay and extend the assertions of the repository's
  tests.

## Modelling decisions

- HTTP methods are named `verb` in the Dafny code, since `method` is a Dafny keyword.
- JSON decoding is an input. The body is given as `ReadOk(decoded)` or `ReadFailed(message)`.
  `decoded` is `None` when decoding failed, so every lookup in it misses.
  `Json` mirrors the values an untyped decode produces. A non-string value never equals a required string.
- The form lookup is built from two inputs: the URL query values and the urlencoded body form values.
  The HTTP library reads a body form only for POST, PUT and PATCH (`ReadsBodyForm`); for those an
  urlencoded body value takes precedence over a query value, and for any other method only the query
  values count (a multipart/form-data body is not modelled; the library ranks its values after the query).
  A missing key reads as `""`, so a required `""` is always met.
- `url` stands for `r.URL.String()`, the re-serialised URL: the request target, or `http://h/p`
  for an absolute-form target.
- The parameter check follows the code at httpfake.go:116. A parameter passes when
  *either* source equals the expected value. It is not "form first, else JSON": a
  JSON string matches even when the form holds a different value (`JsonSatisfiesDespiteForm`).
- The response header is a map from name to the list of values added under it.
  `AddHeaders` appends each declared pair once, in whatever order it is picked.
- The `server` pointer is the boolean `hasServer`. `Close` requires it, because
  `Close` on a fake that was never started dereferences a nil server.
- `New` leaves `routes` nil, and writing into a nil Go map panics. httpfake.go:39-41 swaps
  a nil or empty table for a fresh empty map so that the write at :44 succeeds. Dafny maps
  are values and are never nil, so `AddRoute` needs no such step. For a new route key it
  starts from an empty method map, as httpfake.go:43-45 does.

## Model

| member | source | states |
|---|---|---|
| `RouteTable.Lookup` | httpfake.go:87-99 | definition of the two-level lookup: there is an entry exactly when the route key is in the table and the method is under it, and it is the entry stored there |
| `RouteTable.WithRoute` | httpfake.go:43-53 | the new table has the old route keys plus the route; the route's methods are the old ones plus the method; the pair holds the entry |
| `RouteTable.WithoutRoute` | httpfake.go:72-76 | the pair is absent afterwards; only the route key can disappear; a kept route key has its old methods minus the deleted one |
| `RouteTable.LookupWithRoute` | httpfake.go:39-55 | after registering, (route, method) holds the new entry and every other pair reads as before |
| `RouteTable.LookupWithoutRoute` | httpfake.go:64-78 | after deleting, (route, method) is absent and every other pair reads as before |
| `RouteTable.RouteKeptIffOtherMethods` | httpfake.go:72-76 | a delete keeps the route key if and only if another method remains under it |
| `RouteTable.WithoutRouteKeepsOthers` | httpfake.go:72-73 | deleting one of several methods leaves the route with the remaining methods |
| `RouteTable.WithoutRouteDropsLast` | httpfake.go:74-76 | deleting the only method under a route removes the route key |
| `RouteTable.WithRoutePreservesInvariant` | httpfake.go:43-47 | registering keeps every route key's method map non-empty |
| `RouteTable.WithoutRoutePreservesInvariant` | httpfake.go:72-76 | deleting keeps every route key's method map non-empty |
| `RouteTable.WithRouteOverwrites` | httpfake.go:47-53 | registering a pair twice equals registering it once with the second values |
| `RouteTable.WithoutAfterWithRoute` | httpfake.go:43-76 | on a table without empty method maps, deleting a pair that was absent and just registered gives back the original table |
| `RouteTable.WithRouteAfterWithout` | httpfake.go:43-76 | re-registering a deleted pair with its old entry gives back the original table |
| `Dispatcher.FirstSlash` | httpfake.go:86 | the position found holds the first '/', with none before it, or is the length when there is none |
| `Dispatcher.RouteKey` | httpfake.go:86 | the key is the target when it has no '/'; otherwise it is the target with its first '/' removed (so one shorter, and a leading '/' is dropped) |
| `Dispatcher.QueryDistinguishes` | httpfake.go:86 | for every path and query string, the target with `?` and the query appended has a different route key from the bare path, so they are distinct registrations |
| `Dispatcher.RouteKeyKeepsQuery` | httpfake.go:86 | "/x/y?q=1" gives "x/y?q=1"; the second clause, that "/test/query?query1=1&query2=2" and "/test/query" give different keys, is the tests' instance of `QueryDistinguishes` |
| `Dispatcher.ErrorBody` | httpfake.go:104 | definition of the Sprintf: the error body is `{"error": "`, then the message unchanged, then `"}` |
| `Dispatcher.FormValue` | httpfake.go:116 | definition of the `""` default: the form value of a key in the form is its value; a non-empty result means the key is in the form, so a missing key reads as `""` |
| `Dispatcher.JsonValue` | httpfake.go:114 | definition of the JSON lookup: there is a JSON value exactly when decoding succeeded and holds the key, and it is the decoded value at the key |
| `Dispatcher.ParamSatisfied` | httpfake.go:114-116 | a parameter is met iff the form holds the expected value, or the form lacks the key and the expected value is `""`, or the decoded JSON holds the expected value as a string |
| `Dispatcher.AllParamsSatisfied` | httpfake.go:113-121 | no required parameters are always met; when all are met, a key missing from both the form and the JSON can only be required as `""`; when not all are met, some required key is unmet |
| `Dispatcher.FormOf` | httpfake.go:116 | definition of the merged form: for POST, PUT and PATCH it has the query and urlencoded body form keys and a body form value wins over a query value; for other methods it is the query values alone |
| `Dispatcher.AddHeaders` | httpfake.go:146-150 | each declared header is appended once to its name's values; other names are unchanged |
| `Dispatcher.SetResponse` | httpfake.go:140-144 | the response record holds the given status, the given body and the declared headers added to an empty header (the HTTP library's status checks are not modelled, see "## Left out") |
| `Dispatcher.NotFound` | httpfake.go:136-138 | the response is 404 with body `{"error":"Not Found"}` and the given headers |
| `Dispatcher.RespondHeader` | httpfake.go:140-150 | a response's header has exactly the declared names, each with its one declared value |
| `Dispatcher.WithHeadersSingle` | httpfake.go:146-150 | one declared header on an empty header gives that name with that one value |
| `Dispatcher.Dispatch` | httpfake.go:85-124 | the corrected handler, whose form lookup sees body form values (the handler as written is `DispatchAsWritten`): an unregistered pair gets the not-found response with no header; a registered one gets exactly the entry's header names; the status is 404, 500 or the entry's status |
| `Dispatcher.DispatchAsWritten` | httpfake.go:85-124 | without body form values it agrees with `Dispatch`; an unregistered pair gets the not-found response with no header |
| `Dispatcher.DispatchUnregistered` | httpfake.go:86-97 | a route key or method not in the table is answered 404, `{"error":"Not Found"}`, no header |
| `Dispatcher.DispatchReadFailed` | httpfake.go:102-106 | a failed body read with message m is answered 500, `{"error": "` + m + `"}`, with the entry's headers |
| `Dispatcher.DispatchMatched` | httpfake.go:109-123 | for the corrected handler, with the body read, all parameters met gives the entry's response, otherwise 404 with the entry's headers |
| `Dispatcher.DispatchServesIff` | httpfake.go:113-123 | for the corrected handler and an entry whose response differs from the not-found one: its response is given iff every parameter is met by the form or a JSON string |
| `Dispatcher.DispatchMatchedAsWritten` | httpfake.go:102-123 | as written, with the query values as the only form values: all parameters met gives the entry's response, otherwise 404 with the entry's headers |
| `Dispatcher.NoQueryInKey` | httpfake.go:86 | a route key without `?` comes from a target without `?`, since removing the first '/' never removes a `?` |
| `Dispatcher.DispatchServesIffWithoutQuery` | httpfake.go:86-123 | as written, on a route key without a query string and a request whose query values come from its target: the entry's response is given iff every required value is `""` or equals a JSON string at its key, so no form value ever helps |
| `Dispatcher.DispatchServesIffAsWritten` | httpfake.go:113-123 | as written, for an entry whose response differs from the not-found one: its response is given iff every parameter is met by a query value or a JSON string |
| `Dispatcher.EmptyValueAlwaysSatisfied` | httpfake.go:116 | a required empty value is met when the form has no value for the key |
| `Dispatcher.NonStringJsonNeverSatisfies` | httpfake.go:114-116 | with a non-string JSON value at the key, only the form value can meet the requirement |
| `Dispatcher.JsonSatisfiesDespiteForm` | httpfake.go:114-116 | a JSON string meets the requirement even when the form holds another value |
| `Dispatcher.Drained` | httpfake.go:102-116 | after the body has been read to its end, the form lookup holds the query values only |
| `Dispatcher.FormBodyIgnoredAsWritten` | httpfake.go:102-116 | as written, a parameter sent only as a body form value is not found; the corrected dispatch serves the entry |
| `Dispatcher.FormBodyValueSatisfies` | httpfake.go:116 | corrected: for POST, PUT and PATCH a body form value always meets a requirement of that value |
| `Dispatcher.OtherMethodsIgnoreBodyForm` | httpfake.go:102-116 | for a method other than POST, PUT and PATCH the corrected and the as-written handler answer alike, since no body form is read |
| `Fake.HttpFake.constructor` | httpfake.go:28-31 | a new fake is stopped, has no listener and has an empty table |
| `Fake.HttpFake.AddRoute` | httpfake.go:34-56 | returns true iff not started; then the table is `WithRoute` of the old one, else unchanged; the invariant is kept |
| `Fake.HttpFake.DelRoute` | httpfake.go:59-79 | returns true iff not started and the pair is registered; then the table is `WithoutRoute` of the old one, else unchanged |
| `Fake.HttpFake.Start` | httpfake.go:82-85 | the flag is set, a listener exists and the table is unchanged |
| `Fake.HttpFake.Close` | httpfake.go:130-134 | the flag is cleared and the table is unchanged |
| `Fake.HttpFake.Serve` | httpfake.go:85-124 | the handler's response equals `DispatchAsWritten` of the current table and the request |
| `Fake.Populated` | httpfake_test.go:14-18 | three registrations on a new fake all succeed and give the expected two-route table |
| `Fake.AddRouteScenario` | httpfake_test.go:13-50 | the add-route scenario yields exactly the expected table and three successes |
| `Fake.DeleteSharedMethod` | httpfake_test.go:55-59 | on a table of that shape with any keys, deleting one of a route's two methods leaves the route with the other method |
| `Fake.DeleteSingleRoute` | httpfake_test.go:60-74 | on a table of that shape with any keys, deleting a route's only method removes the route and leaves the other route as it was |
| `Fake.DelRouteScenario` | httpfake_test.go:52-78 | two deletions succeed, deleting an unknown route fails, and the remaining table is the expected one |
| `Fake.LifecycleScenario` | httpfake_test.go:197-209 | a registered route is served with the body `{"success": "true"}`, as the test asserts; it extends the test with status 200, an empty header, and the refusal while started and acceptance after Close that httpfake.go:35-37 and 131 imply |
| `Fake.ParamScenario` | httpfake_test.go:147-162 | on an entry like the test's POST case with body parameters (status 400, body `{"success": "true"}`), a parameter given only in the JSON body is served that body, which is what the test asserts; the model's entry requires only `param1` and adds a `header1` header the test does not have, and a second request to the same target with no query and a JSON number for the parameter gets 404 with that header; `Fake.ExactParamCase` is the test's case as written |
| `Fake.ExactParamCase` | httpfake_test.go:147-162 | the test's POST case with body parameters as written (two required parameters, no headers, status 400), with both parameters as JSON strings, is answered 400 with body `{"success": "true"}` and no header |

## Findings

| source | as written | input that shows it | evidently intended | confidence | as-written member | corrected member |
|---|---|---|---|---|---|---|
| httpfake.go:102-116 | the body is read to its end at line 102, before `FormValue` parses the form at line 116, so the form parser finds an empty body and never sees body form values | `POST /test/query` with urlencoded body `param1=value1`, no query, no JSON, against an entry requiring `param1=value1`: answered 404 | a required parameter sent as a form-encoded body value is met, as the comment at line 112 says ("in form or body") | medium, not executed | `Dispatcher.FormBodyIgnoredAsWritten` | `Dispatcher.FormBodyValueSatisfies` |

`Dispatch` is the corrected reference: for POST, PUT and PATCH its form lookup includes the body form
values. `DispatchAsWritten` is the handler as written, `Dispatch` on the
drained request, and `Serve` is proved equal to it.
On a route key without a query string the query values cannot help either, so
as written a parameter is met only by `""` or a JSON string
(`DispatchServesIffWithoutQuery`).

## Left out

- The listener: `httptest.NewServer`, `server.URL` and `server.Close()` are network I/O. `Start` and `Close` are modelled as flag changes only.
- JSON decoding is a foreign library. The decoded object is an input, and a decode failure is `None`.
- URL and form parsing are foreign. Query and body form values are inputs with one value per name. Multi-valued names are not modelled.
- The body bytes are not modelled, only the result of reading them.
- `query` is not derived from `url`: the program parses the query values from the query string inside the target, which is also part of the route key. The dispatch lemmas therefore also cover requests no client can send (query values on a target without `?`); `DispatchServesIffWithoutQuery` states the case where the two agree.
- The response record holds only the headers the handler adds. The HTTP library also adds Content-Type (sniffed), Content-Length and Date; "no header" in the rows means none added by the handler.
- Header name canonicalisation by the header's `Add` is not modelled. Two declared names that canonicalise alike are kept apart.
- The response writer's ordering of header, status and body is not modelled. The response is one record.
- Concurrency is not modelled: requests served on their own goroutines read `routes` while it is running. The `started` flag is the only guard, and `AddRoute`/`DelRoute` are proved to leave the table unchanged while it is set.
- Aliasing of the caller's `requestParams` and `returnHeaders` maps is not modelled. They are stored by value, so a caller mutating them later has no effect in the model.
- Starting twice creates a second listener and drops the first. The model only keeps the flag up.
- The response record does not model the HTTP library's checks on the status written at httpfake.go:142. `WriteHeader` panics on a status outside 100..999. A 1xx status other than 101 is sent as an informational response, and the body then goes out under an implicit 200. Statuses 204 and 304 allow no body, so the write at httpfake.go:143 fails and the body is dropped. The model keeps any status and body as given.
- `Close` requires that a listener exists: `Close` before any `Start` dereferences a nil server at httpfake.go:133 and panics. That call is outside the model rather than modelled as a failure.
- The handler is not restricted to the started state: `Serve` answers from whatever the table holds when it is called, as the closure does.
