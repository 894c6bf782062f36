/**
 * The per-request decision of the fake server: how the route key is derived
 * from the request target, how the required parameters are checked against
 * the form values and the decoded JSON body, and which response is written.
 */
module Dispatcher {
  import opened Wrappers
  import opened RouteTable

  /** A decoded JSON value, as the JSON decoder produces it for an untyped target. */
  datatype Json =
    | JNull
    | JBool(b: bool)
    | JNumber(n: real)
    | JString(s: string)
    | JArray(items: seq<Json>)
    | JObject(fields: map<string, Json>)

  /**
   * What reading the request body gave: the bytes, decoded best effort as a
   * JSON object (None when decoding failed), or the read error's message.
   */
  datatype Body = ReadOk(decoded: Option<map<string, Json>>) | ReadFailed(message: string)

  /**
   * An incoming request: `url` is its re-serialised URL (`r.URL.String()`, the
   * request target, or "http://h/p" for an absolute-form target), `verb` its
   * method, `query` the values of its URL query, `postForm` the values of an
   * urlencoded body (empty unless the body is such a form; the form lookup
   * uses them only for POST, PUT and PATCH), and what reading its body gave. In the program the query values are parsed from the query
   * string inside `url`; here they are a separate input.
   */
  datatype Request = Request(url: string, verb: string, query: map<string, string>, postForm: map<string, string>, body: Body)

  /** Response header: header name -> the values added under it, in order. */
  type Header = map<string, seq<string>>

  /** What the handler writes: the status line, the body and the header. */
  datatype Response = Response(status: int, body: string, header: Header)

  const NotFoundBody: string := "{\"error\":\"Not Found\"}"

  /** The body of the answer to a failed body read carrying `message`. */
  function ErrorBody(message: string): (body: string)
    ensures |body| == |message| + 13
    ensures body[..11] == "{\"error\": \"" && body[11..|body| - 2] == message && body[|body| - 2..] == "\"}"
  {
    "{\"error\": \"" + message + "\"}"
  }

  /** The position of the first '/' in `s`, or |s| when there is none. */
  function FirstSlash(s: string): (i: nat)
    ensures i <= |s|
    ensures forall j :: 0 <= j < i ==> s[j] != '/'
    ensures i < |s| ==> s[i] == '/'
  {
    if s == [] then 0
    else if s[0] == '/' then 0
    else FirstSlash(s[1..]) + 1
  }

  /** The route key of a request target: the target with its first '/' removed, if it has one. */
  function RouteKey(url: string): (key: string)
    ensures '/' !in url ==> key == url
    ensures '/' in url ==> |key| == |url| - 1
    ensures |url| > 0 && url[0] == '/' ==> key == url[1..]
    ensures forall i :: 0 <= i < |url| && url[i] == '/' && '/' !in url[..i] ==> key == url[..i] + url[i + 1..]
  {
    var first := FirstSlash(url);
    if first == |url| then url else url[..first] + url[first + 1..]
  }

  /** The methods whose urlencoded body the form parser reads. */
  predicate ReadsBodyForm(verb: string)
  {
    verb == "POST" || verb == "PUT" || verb == "PATCH"
  }

  /**
   * The form lookup of a request: for POST, PUT and PATCH a body form value
   * takes precedence over a query value of the same name; for any other method
   * only the query values count.
   */
  function FormOf(req: Request): (form: map<string, string>)
    ensures ReadsBodyForm(req.verb) ==> form.Keys == req.query.Keys + req.postForm.Keys
    ensures !ReadsBodyForm(req.verb) ==> form == req.query
    ensures ReadsBodyForm(req.verb) ==> forall key :: key in req.postForm ==> form[key] == req.postForm[key]
    ensures forall key :: key in req.query && key !in req.postForm ==> form[key] == req.query[key]
  {
    if ReadsBodyForm(req.verb) then req.query + req.postForm else req.query
  }

  /** The form value of `key`: the empty string when the form has none. */
  function FormValue(form: map<string, string>, key: string): (value: string)
    ensures key in form ==> value == form[key]
    ensures value != "" ==> key in form
  {
    if key in form then form[key] else ""
  }

  /** The decoded JSON value at `key`; None when decoding failed or the key is absent. */
  function JsonValue(decoded: Option<map<string, Json>>, key: string): (value: Option<Json>)
    ensures value.Some? <==> decoded.Some? && key in decoded.value
    ensures value.Some? ==> value.value == decoded.value[key]
  {
    if decoded.Some? && key in decoded.value then Some(decoded.value[key]) else None
  }

  /** A required parameter is met when the form value or a JSON string at that key equals it. */
  predicate ParamSatisfied(form: map<string, string>, decoded: Option<map<string, Json>>, key: string, expected: string): (met: bool)
    ensures met <==> (key in form && form[key] == expected) || (key !in form && expected == "")
                     || (decoded.Some? && key in decoded.value && decoded.value[key] == JString(expected))
  {
    FormValue(form, key) == expected || JsonValue(decoded, key) == Some(JString(expected))
  }

  /** Every required parameter is met; this does not depend on any order of the parameters. */
  predicate AllParamsSatisfied(params: map<string, string>, form: map<string, string>, decoded: Option<map<string, Json>>): (met: bool)
    ensures params == map[] ==> met
    ensures met ==> forall key :: key in params && key !in form && JsonValue(decoded, key).None? ==> params[key] == ""
    ensures !met ==> exists key :: key in params && !ParamSatisfied(form, decoded, key, params[key])
  {
    forall key :: key in params ==> ParamSatisfied(form, decoded, key, params[key])
  }

  /** The header after adding each pair of `headers` once to `h`, appending to what `h` already holds. */
  function WithHeaders(h: Header, headers: map<string, string>): Header
  {
    map k | k in h.Keys + headers.Keys :: (if k in h then h[k] else []) + (if k in headers then [headers[k]] else [])
  }

  /** The response with `status`, `body` and each of `headers` added to an empty header. */
  function Respond(status: int, body: string, headers: map<string, string>): Response
  {
    Response(status, body, WithHeaders(map[], headers))
  }

  /** The standard not-found response, carrying `headers`. */
  function NotFoundResponse(headers: map<string, string>): Response
  {
    Respond(404, NotFoundBody, headers)
  }

  /**
   * The response the handler writes for `req` against `routes`, with a form
   * lookup that sees the body form values.
   */
  function Dispatch(routes: Routes, req: Request): (resp: Response)
    ensures Lookup(routes, RouteKey(req.url), req.verb).None? ==> resp == Response(404, NotFoundBody, map[])
    ensures Lookup(routes, RouteKey(req.url), req.verb).Some? ==>
              resp.header.Keys == Lookup(routes, RouteKey(req.url), req.verb).value.returnHeaders.Keys
    ensures resp.status == 404 || resp.status == 500
         || (Lookup(routes, RouteKey(req.url), req.verb).Some?
             && resp.status == Lookup(routes, RouteKey(req.url), req.verb).value.returnStatus)
  {
    var route := RouteKey(req.url);
    if route !in routes then NotFoundResponse(map[])
    else if req.verb !in routes[route] then NotFoundResponse(map[])
    else
      var entry := routes[route][req.verb];
      match req.body
      case ReadFailed(message) => Respond(500, ErrorBody(message), entry.returnHeaders)
      case ReadOk(decoded) =>
        if AllParamsSatisfied(entry.requestParams, FormOf(req), decoded)
        then Respond(entry.returnStatus, entry.returnBody, entry.returnHeaders)
        else NotFoundResponse(entry.returnHeaders)
  }

  /** Adds every pair of `headers` to `w`, one at a time and in no particular order. */
  method AddHeaders(w: Header, headers: map<string, string>) returns (w': Header)
    ensures w'.Keys == w.Keys + headers.Keys
    ensures forall k :: k in headers ==> w'[k] == (if k in w then w[k] else []) + [headers[k]]
    ensures forall k :: k in w && k !in headers ==> w'[k] == w[k]
  {
    w' := w;
    var rest := headers.Keys;
    while rest != {}
      invariant rest <= headers.Keys
      invariant w'.Keys == w.Keys + (headers.Keys - rest)
      invariant forall k :: k in headers && k !in rest ==> w'[k] == (if k in w then w[k] else []) + [headers[k]]
      invariant forall k :: k in w && (k !in headers || k in rest) ==> w'[k] == w[k]
      decreases rest
    {
      var key :| key in rest;
      var existing := if key in w' then w'[key] else [];
      w' := w'[key := existing + [headers[key]]];
      rest := rest - {key};
    }
  }

  /** Writes the header, then the status, then the body. */
  method SetResponse(status: int, body: string, headers: map<string, string>) returns (resp: Response)
    ensures resp == Respond(status, body, headers)
  {
    var header := AddHeaders(map[], headers);
    resp := Response(status, body, header);
  }

  /** Writes the standard not-found response with `headers`. */
  method NotFound(headers: map<string, string>) returns (resp: Response)
    ensures resp.status == 404 && resp.body == NotFoundBody
    ensures resp == NotFoundResponse(headers)
  {
    resp := SetResponse(404, NotFoundBody, headers);
  }

  /** A fresh response carries each declared header exactly once, with its declared value. */
  lemma RespondHeader(status: int, body: string, headers: map<string, string>)
    ensures Respond(status, body, headers).header.Keys == headers.Keys
    ensures forall k :: k in headers ==> Respond(status, body, headers).header[k] == [headers[k]]
  {
  }

  /** Adding a single header to an empty header gives that one name with that one value. */
  lemma WithHeadersSingle(name: string, value: string)
    ensures WithHeaders(map[], map[name := value]) == map[name := [value]]
  {
    var h := WithHeaders(map[], map[name := value]);
    assert h.Keys == {name};
    assert h[name] == [value];
  }

  /** A target with a query string and the same target without it never share a route key. */
  lemma QueryDistinguishes(path: string, query: string)
    ensures RouteKey(path + "?" + query) != RouteKey(path)
  {
    var target := path + "?" + query;
    if '/' in path {
      var i := FirstSlash(path);
      assert target[i] == '/';
      assert |RouteKey(target)| == |target| - 1;
    } else {
      assert |RouteKey(target)| >= |target| - 1;
    }
  }

  /**
   * "/x/y?q=1" keeps its query string in its route key. The second clause is
   * the tests' instance of `QueryDistinguishes`, for "/test/query" and
   * "query1=1&query2=2".
   */
  lemma RouteKeyKeepsQuery()
    ensures RouteKey("/x/y?q=1") == "x/y?q=1"
    ensures RouteKey("/test/query?query1=1&query2=2") != RouteKey("/test/query")
  {
  }

  /** An unregistered route or method is answered 404 with the fixed body and no header. */
  lemma DispatchUnregistered(routes: Routes, req: Request)
    requires Lookup(routes, RouteKey(req.url), req.verb).None?
    ensures Dispatch(routes, req) == Response(404, NotFoundBody, map[])
  {
  }

  /** A failed body read on a registered pair is answered 500 with the message and the entry's headers. */
  lemma DispatchReadFailed(routes: Routes, req: Request, entry: RequestResponse, message: string)
    requires Lookup(routes, RouteKey(req.url), req.verb) == Some(entry)
    requires req.body == ReadFailed(message)
    ensures Dispatch(routes, req) == Respond(500, "{\"error\": \"" + message + "\"}", entry.returnHeaders)
  {
  }

  /**
   * On a registered pair whose body was read, the entry's own response is
   * given when every required parameter is met, and the not-found response
   * with the entry's headers otherwise.
   */
  lemma DispatchMatched(routes: Routes, req: Request, entry: RequestResponse, decoded: Option<map<string, Json>>)
    requires Lookup(routes, RouteKey(req.url), req.verb) == Some(entry)
    requires req.body == ReadOk(decoded)
    ensures AllParamsSatisfied(entry.requestParams, FormOf(req), decoded) ==>
              Dispatch(routes, req) == Respond(entry.returnStatus, entry.returnBody, entry.returnHeaders)
    ensures !AllParamsSatisfied(entry.requestParams, FormOf(req), decoded) ==>
              Dispatch(routes, req) == NotFoundResponse(entry.returnHeaders)
  {
  }

  /**
   * When the entry's own response differs from the not-found one, the
   * entry's response is given if and only if every required parameter is met.
   */
  lemma DispatchServesIff(routes: Routes, req: Request, entry: RequestResponse, decoded: Option<map<string, Json>>)
    requires Lookup(routes, RouteKey(req.url), req.verb) == Some(entry)
    requires req.body == ReadOk(decoded)
    requires entry.returnStatus != 404 || entry.returnBody != NotFoundBody
    ensures Dispatch(routes, req) == Respond(entry.returnStatus, entry.returnBody, entry.returnHeaders)
        <==> forall key :: key in entry.requestParams ==>
               FormValue(FormOf(req), key) == entry.requestParams[key]
               || JsonValue(decoded, key) == Some(JString(entry.requestParams[key]))
  {
  }

  /** As written, `DispatchMatched` holds with the query values alone as the form lookup. */
  lemma DispatchMatchedAsWritten(routes: Routes, req: Request, entry: RequestResponse, decoded: Option<map<string, Json>>)
    requires Lookup(routes, RouteKey(req.url), req.verb) == Some(entry)
    requires req.body == ReadOk(decoded)
    ensures AllParamsSatisfied(entry.requestParams, req.query, decoded) ==>
              DispatchAsWritten(routes, req) == Respond(entry.returnStatus, entry.returnBody, entry.returnHeaders)
    ensures !AllParamsSatisfied(entry.requestParams, req.query, decoded) ==>
              DispatchAsWritten(routes, req) == NotFoundResponse(entry.returnHeaders)
  {
    DispatchMatched(routes, Drained(req), entry, decoded);
  }

  /** As written, `DispatchServesIff` holds with the query values alone as the form lookup. */
  lemma DispatchServesIffAsWritten(routes: Routes, req: Request, entry: RequestResponse, decoded: Option<map<string, Json>>)
    requires Lookup(routes, RouteKey(req.url), req.verb) == Some(entry)
    requires req.body == ReadOk(decoded)
    requires entry.returnStatus != 404 || entry.returnBody != NotFoundBody
    ensures DispatchAsWritten(routes, req) == Respond(entry.returnStatus, entry.returnBody, entry.returnHeaders)
        <==> forall key :: key in entry.requestParams ==>
               FormValue(req.query, key) == entry.requestParams[key]
               || JsonValue(decoded, key) == Some(JString(entry.requestParams[key]))
  {
    DispatchServesIff(routes, Drained(req), entry, decoded);
  }

  /** A route key without '?' comes from a target without '?': removing a '/' never removes a '?'. */
  lemma NoQueryInKey(url: string)
    requires '?' !in RouteKey(url)
    ensures '?' !in url
  {
    var i := FirstSlash(url);
    if i < |url| {
      var key := url[..i] + url[i + 1..];
      assert key == RouteKey(url);
      assert '?' !in url[..i] && '?' !in url[i + 1..] by {
        assert forall c :: c in url[..i] ==> c in key;
        assert forall c :: c in url[i + 1..] ==> c in key;
      }
      assert url == url[..i] + [url[i]] + url[i + 1..];
    }
  }

  /**
   * As written, on a route key without a query string and a request whose
   * query values come from its target, no form value can help: the entry's
   * response is given iff every required value is "" or a JSON string equal to it.
   */
  lemma DispatchServesIffWithoutQuery(routes: Routes, req: Request, entry: RequestResponse, decoded: Option<map<string, Json>>)
    requires Lookup(routes, RouteKey(req.url), req.verb) == Some(entry)
    requires '?' !in RouteKey(req.url)
    requires '?' !in req.url ==> req.query == map[]
    requires req.body == ReadOk(decoded)
    requires entry.returnStatus != 404 || entry.returnBody != NotFoundBody
    ensures DispatchAsWritten(routes, req) == Respond(entry.returnStatus, entry.returnBody, entry.returnHeaders)
        <==> forall key :: key in entry.requestParams ==>
               entry.requestParams[key] == ""
               || JsonValue(decoded, key) == Some(JString(entry.requestParams[key]))
  {
    NoQueryInKey(req.url);
    assert forall key :: FormValue(req.query, key) == "";
    DispatchServesIffAsWritten(routes, req, entry, decoded);
  }

  /** A required empty value is always met: an absent form value reads as the empty string. */
  lemma EmptyValueAlwaysSatisfied(form: map<string, string>, decoded: Option<map<string, Json>>, key: string)
    requires key !in form || form[key] == ""
    ensures ParamSatisfied(form, decoded, key, "")
  {
  }

  /** A JSON value that is not a string never meets a requirement; only the form value can. */
  lemma NonStringJsonNeverSatisfies(form: map<string, string>, decoded: Option<map<string, Json>>, key: string, expected: string)
    requires JsonValue(decoded, key).Some? && !JsonValue(decoded, key).value.JString?
    ensures ParamSatisfied(form, decoded, key, expected) <==> FormValue(form, key) == expected
  {
  }

  /** A JSON string meets the requirement even when the form holds a different value: either source suffices. */
  lemma JsonSatisfiesDespiteForm(form: map<string, string>, fields: map<string, Json>, key: string, expected: string)
    requires key in form && form[key] != expected
    requires key in fields && fields[key] == JString(expected)
    ensures ParamSatisfied(form, Some(fields), key, expected)
  {
  }

  /**
   * The request as the form parser finds it in the handler as written: the
   * body has already been read to its end, so no body form value is left.
   */
  function Drained(req: Request): (drained: Request)
    ensures FormOf(drained) == req.query
    ensures drained.url == req.url && drained.verb == req.verb && drained.body == req.body
  {
    req.(postForm := map[])
  }

  /**
   * The handler's answer as written, where the form lookup runs after the
   * body has been consumed. It agrees with the corrected dispatch on every
   * request that carries no body form values.
   */
  function DispatchAsWritten(routes: Routes, req: Request): (resp: Response)
    ensures req.postForm == map[] ==> resp == Dispatch(routes, req)
    ensures Lookup(routes, RouteKey(req.url), req.verb).None? ==> resp == Response(404, NotFoundBody, map[])
  {
    Dispatch(routes, Drained(req))
  }

  /**
   * As written, a required parameter sent only as a form-encoded body value is
   * not found: the request gets the not-found response instead of the entry's.
   */
  lemma FormBodyIgnoredAsWritten()
    ensures var entry := RequestResponse(200, "ok", map[], map["param1" := "value1"]);
            var routes := map["test/query" := map["POST" := entry]];
            var req := Request("/test/query", "POST", map[], map["param1" := "value1"], ReadOk(None));
            && DispatchAsWritten(routes, req) == NotFoundResponse(map[])
            && Dispatch(routes, req) == Respond(200, "ok", map[])
  {
    var entry := RequestResponse(200, "ok", map[], map["param1" := "value1"]);
    var routes := map["test/query" := map["POST" := entry]];
    var req := Request("/test/query", "POST", map[], map["param1" := "value1"], ReadOk(None));
    assert RouteKey(req.url) == "test/query";
    assert !ParamSatisfied(FormOf(Drained(req)), None, "param1", "value1");
    assert AllParamsSatisfied(entry.requestParams, FormOf(req), None);
  }

  /**
   * For a method other than POST, PUT and PATCH the body form is never read,
   * so the corrected and the as-written handler give the same answer.
   */
  lemma OtherMethodsIgnoreBodyForm(routes: Routes, req: Request)
    requires !ReadsBodyForm(req.verb)
    ensures Dispatch(routes, req) == DispatchAsWritten(routes, req)
  {
    assert FormOf(req) == FormOf(Drained(req));
  }

  /** For POST, PUT and PATCH, a required parameter given as a body form value is met, whatever the query and the JSON body hold. */
  lemma FormBodyValueSatisfies(req: Request, decoded: Option<map<string, Json>>, key: string)
    requires ReadsBodyForm(req.verb)
    requires key in req.postForm
    ensures ParamSatisfied(FormOf(req), decoded, key, req.postForm[key])
  {
  }
}
