/**
 * The route table of the fake server as a value: a two-level map from route
 * key to HTTP method to the registered expectation, together with the
 * insert and delete operations that the table's methods perform in place.
 */
module RouteTable {
  import opened Wrappers

  /** One registered expectation: the canned response and the parameters a request must carry. */
  datatype RequestResponse = RequestResponse(
    returnStatus: int,
    returnBody: string,
    returnHeaders: map<string, string>,
    requestParams: map<string, string>)

  /** route key -> method -> expectation */
  type Routes = map<string, map<string, RequestResponse>>

  /** The entry registered for (route, method), if any. */
  function Lookup(routes: Routes, route: string, verb: string): (entry: Option<RequestResponse>)
    ensures entry.Some? <==> route in routes && verb in routes[route]
    ensures entry.Some? ==> entry.value == routes[route][verb]
  {
    if route in routes && verb in routes[route] then Some(routes[route][verb]) else None
  }

  /** No route key is left with an empty method map. */
  ghost predicate NoEmptyMethodMaps(routes: Routes)
  {
    forall route :: route in routes ==> routes[route] != map[]
  }

  /** The table after registering `entry` for (route, method), creating the method map when the route is new. */
  function WithRoute(routes: Routes, route: string, verb: string, entry: RequestResponse): (r: Routes)
    ensures r.Keys == routes.Keys + {route}
    ensures r[route].Keys == (if route in routes then routes[route].Keys else {}) + {verb}
    ensures r[route][verb] == entry
  {
    var methods := if route in routes then routes[route] else map[];
    routes[route := methods[verb := entry]]
  }

  /** The table after deleting (route, method), dropping the route key when its last method goes. */
  function WithoutRoute(routes: Routes, route: string, verb: string): (r: Routes)
    requires Lookup(routes, route, verb).Some?
    ensures Lookup(r, route, verb).None?
    ensures r.Keys <= routes.Keys && routes.Keys - r.Keys <= {route}
    ensures route in r ==> r[route].Keys == routes[route].Keys - {verb}
  {
    var methods := routes[route] - {verb};
    if |methods| == 0 then routes - {route} else routes[route := methods]
  }

  /** Registering touches exactly (route, method): it is now `entry`, every other pair is as before. */
  lemma LookupWithRoute(routes: Routes, route: string, verb: string, entry: RequestResponse, r: string, m: string)
    ensures Lookup(WithRoute(routes, route, verb, entry), r, m)
         == if r == route && m == verb then Some(entry) else Lookup(routes, r, m)
  {
  }

  /** Deleting touches exactly (route, method): it is now absent, every other pair is as before. */
  lemma LookupWithoutRoute(routes: Routes, route: string, verb: string, r: string, m: string)
    requires Lookup(routes, route, verb).Some?
    ensures Lookup(WithoutRoute(routes, route, verb), r, m)
         == if r == route && m == verb then None else Lookup(routes, r, m)
  {
    var methods := routes[route] - {verb};
    if |methods| == 0 && r == route && m != verb {
      assert m !in methods;
    }
  }

  /** The route key survives a delete exactly when some other method remains under it. */
  lemma RouteKeptIffOtherMethods(routes: Routes, route: string, verb: string)
    requires Lookup(routes, route, verb).Some?
    ensures route in WithoutRoute(routes, route, verb) <==> exists m :: m in routes[route] && m != verb
  {
    var methods := routes[route] - {verb};
    if exists m :: m in routes[route] && m != verb {
      var m :| m in routes[route] && m != verb;
      assert m in methods;
    }
  }

  /** Deleting one of several methods keeps the route key with the remaining methods. */
  lemma WithoutRouteKeepsOthers(routes: Routes, route: string, verb: string, other: string)
    requires Lookup(routes, route, verb).Some?
    requires other in routes[route] && other != verb
    ensures WithoutRoute(routes, route, verb) == routes[route := routes[route] - {verb}]
  {
    assert other in routes[route] - {verb};
  }

  /** Deleting the only method under a route removes the route key. */
  lemma WithoutRouteDropsLast(routes: Routes, route: string, verb: string)
    requires Lookup(routes, route, verb).Some?
    requires routes[route].Keys == {verb}
    ensures WithoutRoute(routes, route, verb) == routes - {route}
  {
    assert (routes[route] - {verb}).Keys == {};
  }

  /** Registering keeps every route key's method map non-empty. */
  lemma WithRoutePreservesInvariant(routes: Routes, route: string, verb: string, entry: RequestResponse)
    requires NoEmptyMethodMaps(routes)
    ensures NoEmptyMethodMaps(WithRoute(routes, route, verb, entry))
  {
    var after := WithRoute(routes, route, verb, entry);
    assert verb in after[route];
  }

  /** Deleting keeps every route key's method map non-empty. */
  lemma WithoutRoutePreservesInvariant(routes: Routes, route: string, verb: string)
    requires NoEmptyMethodMaps(routes)
    requires Lookup(routes, route, verb).Some?
    ensures NoEmptyMethodMaps(WithoutRoute(routes, route, verb))
  {
    var methods := routes[route] - {verb};
    if |methods| != 0 {
      assert methods != map[];
    }
  }

  /** A second registration of the same pair leaves one entry, holding the second registration's values. */
  lemma WithRouteOverwrites(routes: Routes, route: string, verb: string, first: RequestResponse, second: RequestResponse)
    ensures WithRoute(WithRoute(routes, route, verb, first), route, verb, second)
         == WithRoute(routes, route, verb, second)
  {
    var once := WithRoute(routes, route, verb, first);
    assert once[route][verb := second] == (if route in routes then routes[route] else map[])[verb := second];
  }

  /** Adding a fresh key and removing it again gives back the map. */
  lemma UpdateThenRemove<K, V>(m: map<K, V>, k: K, v: V)
    requires k !in m
    ensures m[k := v] - {k} == m
  {
  }

  /** Removing a key and putting its value back gives back the map. */
  lemma RemoveThenRestore<K, V>(m: map<K, V>, k: K)
    requires k in m
    ensures (m - {k})[k := m[k]] == m
  {
  }

  /** Overwriting a key and putting its value back gives back the map. */
  lemma UpdateThenRestore<K, V>(m: map<K, V>, k: K, v: V)
    requires k in m
    ensures m[k := v][k := m[k]] == m
  {
  }

  /** Deleting a pair that was just registered, when it was absent before, gives back the original table. */
  lemma WithoutAfterWithRoute(routes: Routes, route: string, verb: string, entry: RequestResponse)
    requires NoEmptyMethodMaps(routes)
    requires Lookup(routes, route, verb).None?
    ensures WithoutRoute(WithRoute(routes, route, verb, entry), route, verb) == routes
  {
    var before := if route in routes then routes[route] else map[];
    var added := routes[route := before[verb := entry]];
    assert WithRoute(routes, route, verb, entry) == added;
    UpdateThenRemove(before, verb, entry);
    if route in routes {
      assert routes[route] != map[];
      assert WithoutRoute(added, route, verb) == added[route := before];
      UpdateThenRestore(routes, route, before[verb := entry]);
    } else {
      assert |before| == 0;
      assert WithoutRoute(added, route, verb) == added - {route};
      UpdateThenRemove(routes, route, before[verb := entry]);
    }
  }

  /** Re-registering a pair that was just deleted, with its old entry, gives back the original table. */
  lemma WithRouteAfterWithout(routes: Routes, route: string, verb: string)
    requires Lookup(routes, route, verb).Some?
    ensures WithRoute(WithoutRoute(routes, route, verb), route, verb, routes[route][verb]) == routes
  {
    var methods := routes[route] - {verb};
    RemoveThenRestore(routes[route], verb);
    if |methods| == 0 {
      assert methods == map[];
      assert WithoutRoute(routes, route, verb) == routes - {route};
      assert WithRoute(routes - {route}, route, verb, routes[route][verb]) == (routes - {route})[route := routes[route]];
      RemoveThenRestore(routes, route);
    } else {
      assert WithoutRoute(routes, route, verb) == routes[route := methods];
      assert WithRoute(routes[route := methods], route, verb, routes[route][verb]) == routes[route := methods][route := routes[route]];
      UpdateThenRestore(routes, route, methods);
    }
  }
}
