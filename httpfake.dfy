/**
 * The fake server object: its route table, which may change only while the
 * server is stopped, its lifecycle flag, and the handler that answers each
 * request from the table as it stands.
 */
module Fake {
  import opened Wrappers
  import opened RouteTable
  import opened Dispatcher

  class HttpFake {
    /** True between Start and Close; the table refuses changes meanwhile. */
    var started: bool
    /** Whether a listener was ever created, so that Close has one to stop. */
    var hasServer: bool
    var routes: Routes

    /** The table's invariant: no route key holds an empty method map. */
    ghost predicate Valid()
      reads this
    {
      NoEmptyMethodMaps(routes)
    }

    /** A new fake: stopped, no listener, no routes. */
    constructor ()
      ensures Valid()
      ensures !started && !hasServer && routes == map[]
    {
      started := false;
      hasServer := false;
      routes := map[];
    }

    /**
     * Registers (or overwrites) the entry for (route, verb). Refused, with
     * nothing changed, while the server is started.
     */
    method AddRoute(route: string, verb: string, requestParams: map<string, string>, returnStatus: int,
                    returnBody: string, returnHeaders: map<string, string>) returns (ok: bool)
      requires Valid()
      modifies this
      ensures Valid()
      ensures ok == !old(started)
      ensures started == old(started) && hasServer == old(hasServer)
      ensures routes == if ok then WithRoute(old(routes), route, verb, RequestResponse(returnStatus, returnBody, returnHeaders, requestParams))
                        else old(routes)
      ensures forall r, m :: Lookup(routes, r, m)
                == if ok && r == route && m == verb then Some(RequestResponse(returnStatus, returnBody, returnHeaders, requestParams))
                   else Lookup(old(routes), r, m)
    {
      if started {
        return false;
      }
      var entry := RequestResponse(returnStatus, returnBody, returnHeaders, requestParams);
      WithRoutePreservesInvariant(routes, route, verb, entry);
      forall r, m
        ensures Lookup(WithRoute(routes, route, verb, entry), r, m)
             == if r == route && m == verb then Some(entry) else Lookup(routes, r, m)
      {
        LookupWithRoute(routes, route, verb, entry, r, m);
      }
      var methods := if route in routes then routes[route] else map[];
      routes := routes[route := methods[verb := entry]];
      return true;
    }

    /**
     * Deletes the entry for (route, verb), and the route key with it when no
     * other method remains. Refused, with nothing changed, while the server
     * is started or when the pair is not registered.
     */
    method DelRoute(route: string, verb: string) returns (ok: bool)
      requires Valid()
      modifies this
      ensures Valid()
      ensures ok == (!old(started) && Lookup(old(routes), route, verb).Some?)
      ensures started == old(started) && hasServer == old(hasServer)
      ensures routes == if ok then WithoutRoute(old(routes), route, verb) else old(routes)
      ensures forall r, m :: Lookup(routes, r, m)
                == if ok && r == route && m == verb then None else Lookup(old(routes), r, m)
      ensures ok ==> (route in routes <==> exists m :: m in old(routes)[route] && m != verb)
    {
      if started {
        return false;
      }
      if route !in routes {
        return false;
      }
      if verb !in routes[route] {
        return false;
      }
      WithoutRoutePreservesInvariant(routes, route, verb);
      RouteKeptIffOtherMethods(routes, route, verb);
      forall r, m
        ensures Lookup(WithoutRoute(routes, route, verb), r, m)
             == if r == route && m == verb then None else Lookup(routes, r, m)
      {
        LookupWithoutRoute(routes, route, verb, r, m);
      }
      routes := routes[route := routes[route] - {verb}];
      if |routes[route]| == 0 {
        routes := routes - {route};
      }
      return true;
    }

    /** Starts the listener: the flag goes up and the table is left as it is. */
    method Start()
      requires Valid()
      modifies this
      ensures Valid()
      ensures started && hasServer && routes == old(routes)
    {
      started := true;
      hasServer := true;
    }

    /** Stops the listener: the flag goes down and the table is left as it is. */
    method Close()
      requires hasServer
      requires Valid()
      modifies this
      ensures Valid()
      ensures !started && hasServer && routes == old(routes)
    {
      started := false;
    }

    /**
     * The handler the listener runs for each request: answers `req` from the
     * current table. The body is read before the form is looked up, so the
     * form lookup finds no body form values.
     */
    method Serve(req: Request) returns (resp: Response)
      ensures resp == DispatchAsWritten(routes, req)
    {
      var route := RouteKey(req.url);
      if route !in routes {
        resp := NotFound(map[]);
        return;
      }
      if req.verb !in routes[route] {
        resp := NotFound(map[]);
        return;
      }
      var entry := routes[route][req.verb];
      if req.body.ReadFailed? {
        resp := SetResponse(500, ErrorBody(req.body.message), entry.returnHeaders);
        return;
      }
      var decoded := req.body.decoded;
      var form := FormOf(Drained(req));
      var pending := entry.requestParams.Keys;
      while pending != {}
        invariant pending <= entry.requestParams.Keys
        invariant forall key :: key in entry.requestParams && key !in pending ==>
                    ParamSatisfied(form, decoded, key, entry.requestParams[key])
        decreases pending
      {
        var key :| key in pending;
        var expected := entry.requestParams[key];
        if FormValue(form, key) != expected && JsonValue(decoded, key) != Some(JString(expected)) {
          resp := NotFound(entry.returnHeaders);
          return;
        }
        pending := pending - {key};
      }
      resp := SetResponse(entry.returnStatus, entry.returnBody, entry.returnHeaders);
    }
  }

  const SuccessBody: string := "{\"success\": \"true\"}"
  const Approved: RequestResponse := RequestResponse(200, SuccessBody, map[], map[])
  const Query: RequestResponse :=
    RequestResponse(200, SuccessBody, map["header1" := "value1"], map["param1" := "value1", "param2" := "value2"])

  /** A stopped fake holding the three registrations of the add- and delete-route scenarios. */
  method Populated() returns (fake: HttpFake, ok1: bool, ok2: bool, ok3: bool)
    ensures fresh(fake) && fake.Valid() && !fake.started
    ensures ok1 && ok2 && ok3
    ensures fake.routes == map["test/query:approve" := map["GET" := Approved, "POST" := Approved],
                               "test/query" := map["POST" := Query]]
  {
    fake := new HttpFake();
    ok1 := fake.AddRoute("test/query:approve", "GET", map[], 200, SuccessBody, map[]);
    ok2 := fake.AddRoute("test/query:approve", "POST", map[], 200, SuccessBody, map[]);
    ok3 := fake.AddRoute("test/query", "POST", map["param1" := "value1", "param2" := "value2"], 200,
                         SuccessBody, map["header1" := "value1"]);
  }

  /**
   * Registering the three routes of the add-route scenario gives exactly the
   * table the scenario expects, and every registration succeeds.
   */
  method AddRouteScenario() returns (ok1: bool, ok2: bool, ok3: bool, table: Routes)
    ensures ok1 && ok2 && ok3
    ensures table == map[
      "test/query:approve" := map[
        "GET" := RequestResponse(200, "{\"success\": \"true\"}", map[], map[]),
        "POST" := RequestResponse(200, "{\"success\": \"true\"}", map[], map[])],
      "test/query" := map[
        "POST" := RequestResponse(200, "{\"success\": \"true\"}", map["header1" := "value1"],
                                  map["param1" := "value1", "param2" := "value2"])]]
  {
    var fake;
    fake, ok1, ok2, ok3 := Populated();
    table := fake.routes;
  }

  /** The first deletion of the delete-route scenario, on a table of the same shape with any keys: one of two methods goes. */
  lemma DeleteSharedMethod(shared: string, single: string, get: string, post: string, a: RequestResponse, b: RequestResponse)
    requires shared != single && get != post
    ensures var t3 := map[shared := map[get := a, post := a], single := map[post := b]];
            && Lookup(t3, shared, post).Some?
            && WithoutRoute(t3, shared, post) == map[shared := map[get := a], single := map[post := b]]
  {
    var t3 := map[shared := map[get := a, post := a], single := map[post := b]];
    WithoutRouteKeepsOthers(t3, shared, post, get);
    assert map[get := a, post := a] - {post} == map[get := a];
    assert t3[shared := map[get := a]] == map[shared := map[get := a], single := map[post := b]];
  }

  /** The second deletion of the delete-route scenario: the only method of a route goes, and the route with it. */
  lemma DeleteSingleRoute(shared: string, single: string, post: string, a: map<string, RequestResponse>, b: RequestResponse)
    requires shared != single
    ensures var t4 := map[shared := a, single := map[post := b]];
            && Lookup(t4, single, post).Some? && WithoutRoute(t4, single, post) == map[shared := a]
  {
    var t4 := map[shared := a, single := map[post := b]];
    WithoutRouteDropsLast(t4, single, post);
    assert t4 - {single} == map[shared := a];
  }

  /**
   * Deleting one of two methods keeps its route, deleting the only method
   * drops its route, and deleting an unknown route is refused.
   */
  method DelRouteScenario() returns (ok1: bool, ok2: bool, ok3: bool, table: Routes)
    ensures ok1 && ok2 && !ok3
    ensures table == map["test/query:approve" := map["GET" := RequestResponse(200, "{\"success\": \"true\"}", map[], map[])]]
  {
    var fake, _, _, _ := Populated();
    assert "test/query:approve" != "test/query" && "GET" != "POST";
    DeleteSharedMethod("test/query:approve", "test/query", "GET", "POST", Approved, Query);
    DeleteSingleRoute("test/query:approve", "test/query", "POST", map["GET" := Approved], Query);
    ok1 := fake.DelRoute("test/query:approve", "POST");
    ok2 := fake.DelRoute("test/query", "POST");
    ok3 := fake.DelRoute("test/wrong", "POST");
    table := fake.routes;
  }

  /**
   * The served-route scenario, extended with the lifecycle: a route
   * registered before Start is served while started; registration is refused
   * while started and accepted again after Close.
   */
  method LifecycleScenario() returns (before: bool, during: bool, after: bool, resp: Response)
    ensures before && !during && after
    ensures resp.status == 200 && resp.body == "{\"success\": \"true\"}" && resp.header == map[]
  {
    var fake := new HttpFake();
    before := fake.AddRoute("test/query:approve", "GET", map[], 200, SuccessBody, map[]);
    fake.Start();
    during := fake.AddRoute("test/query", "GET", map[], 200, "", map[]);
    resp := fake.Serve(Request("/test/query:approve", "GET", map[], map[], ReadOk(None)));
    fake.Close();
    after := fake.AddRoute("test/query", "GET", map[], 200, "", map[]);
  }

  /**
   * The JSON-body parameter scenario, extended: a required parameter given
   * only in the decoded JSON body lets the request through; a request with
   * no query and a JSON number for the parameter gets the not-found body with
   * the entry's headers.
   */
  method ParamScenario() returns (viaJson: Response, missing: Response)
    ensures viaJson.status == 400 && viaJson.body == "{\"success\": \"true\"}"
    ensures missing == Response(404, NotFoundBody, map["header1" := ["value1"]])
  {
    var fake := new HttpFake();
    var entry := RequestResponse(400, "{\"success\": \"true\"}", map["header1" := "value1"], map["param1" := "value1"]);
    var _ := fake.AddRoute("test/query:approve", "POST", entry.requestParams, entry.returnStatus,
                           entry.returnBody, entry.returnHeaders);
    fake.Start();
    assert Lookup(fake.routes, "test/query:approve", "POST") == Some(entry);
    var jsonOnly := Request("/test/query:approve", "POST", map[], map[], ReadOk(Some(map["param1" := JString("value1")])));
    assert RouteKey(jsonOnly.url) == "test/query:approve";
    DispatchMatched(fake.routes, jsonOnly, entry, jsonOnly.body.decoded);
    assert ParamSatisfied(FormOf(jsonOnly), jsonOnly.body.decoded, "param1", "value1");
    viaJson := fake.Serve(jsonOnly);
    var neither := Request("/test/query:approve", "POST", map[], map[], ReadOk(Some(map["param1" := JNumber(1.0)])));
    DispatchMatched(fake.routes, neither, entry, neither.body.decoded);
    assert !ParamSatisfied(FormOf(neither), neither.body.decoded, "param1", "value1");
    WithHeadersSingle("header1", "value1");
    missing := fake.Serve(neither);
    fake.Close();
  }

  /**
   * The POST case with body parameters exactly as the tests register it: two
   * required parameters, no headers, status 400, and a JSON body carrying both.
   */
  method ExactParamCase() returns (resp: Response)
    ensures resp == Response(400, SuccessBody, map[])
  {
    var fake := new HttpFake();
    var params := map["param1" := "value1", "param2" := "value2"];
    var entry := RequestResponse(400, SuccessBody, map[], params);
    var _ := fake.AddRoute("test/query:approve", "POST", params, 400, SuccessBody, map[]);
    fake.Start();
    assert Lookup(fake.routes, "test/query:approve", "POST") == Some(entry);
    var fields := map["param1" := JString("value1"), "param2" := JString("value2")];
    var req := Request("/test/query:approve", "POST", map[], map[], ReadOk(Some(fields)));
    assert RouteKey(req.url) == "test/query:approve";
    assert AllParamsSatisfied(params, FormOf(Drained(req)), Some(fields));
    DispatchMatched(fake.routes, Drained(req), entry, Some(fields));
    resp := fake.Serve(req);
    fake.Close();
  }
}
