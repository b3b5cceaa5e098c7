/**
 Revisioned desired routes owned by external controllers: applying, deleting and
 expiring them, with idempotent replays of earlier requests.

 A route's prefixes are kept as the set of their canonical texts: the stored list is
 sorted and free of duplicates, so the set says the same. The digest of a request is
 taken to be collision-free and is represented by the request.
 */
module Extensions {
  import opened Outcomes
  import opened Text

  const MAX_ROUTE_TTL_SECONDS: nat := 30 * 24 * 60 * 60
  const MAX_IDEMPOTENCY_RECORDS: nat := 1024
  const CONTROL_API_VERSION: nat := 1

  // --------------------------------------------------------------------- data

  /** A text and the canonical form it parses to, if it parses. */
  datatype Input = Input(raw: string, canonical: Option<string>)

  datatype RouteApply = RouteApply(
    apiVersion: nat, name: string, owner: string, revision: nat, ttl: Option<nat>,
    endpoint: Input, prefixes: seq<Input>)

  datatype Request =
    | ApplyRoutes(routes: seq<RouteApply>, dryRun: bool, key: string)
    | DeleteRoutes(owner: string, names: seq<string>, expected: Option<nat>, dryRun: bool, key: string)

  datatype Route = Route(
    apiVersion: nat, name: string, owner: string, revision: nat, expires: Option<nat>,
    endpoint: string, prefixes: set<string>)

  type Routes = map<string, Route>

  datatype MutationResult = MutationResult(
    generation: nat, changed: nat, kept: nat, dryRun: bool, routes: seq<Route>)

  datatype Record = Record(fingerprint: Request, result: MutationResult)

  datatype State = State(generation: nat, routes: Routes, idempotency: map<string, Record>)

  datatype Mutation = Mutation(state: State, result: MutationResult, persist: bool, reload: bool)

  // --------------------------------------------------------------- validation

  predicate NameCharacter(c: char) {
    'a' <= c <= 'z' || 'A' <= c <= 'Z' || '0' <= c <= '9' || c == '.' || c == '/' || c == '_' || c == '-'
  }

  predicate ValidName(name: string) {
    0 < |name| <= 128 && forall i :: 0 <= i < |name| ==> NameCharacter(name[i])
  }

  predicate ValidPrefixes(prefixes: seq<Input>) {
    && prefixes != []
    && (forall i :: 0 <= i < |prefixes| ==> prefixes[i].canonical.Some?)
    && (forall i, j :: 0 <= i < j < |prefixes| ==> prefixes[i].canonical != prefixes[j].canonical)
  }

  predicate ValidApply(route: RouteApply) {
    && route.apiVersion == CONTROL_API_VERSION
    && ValidName(route.name) && ValidName(route.owner)
    && route.revision > 0
    && (route.ttl.Some? ==> 0 < route.ttl.value <= MAX_ROUTE_TTL_SECONDS)
    && route.endpoint.canonical.Some?
    && ValidPrefixes(route.prefixes)
  }

  function Desired(route: RouteApply, now: nat): Route
    requires ValidApply(route)
  {
    Route(CONTROL_API_VERSION, route.name, route.owner, route.revision,
          if route.ttl.Some? then Some(SaturatingAdd(now, route.ttl.value)) else None,
          route.endpoint.canonical.value,
          set i | 0 <= i < |route.prefixes| :: route.prefixes[i].canonical.value)
  }

  predicate Expired(route: Route, now: nat) {
    route.expires.Some? && route.expires.value <= now
  }

  function RouteKey(owner: string, name: string): string {
    owner + "/" + name
  }

  // ------------------------------------------------------------------ listing

  function Live(routes: Routes, now: nat): Routes {
    map k | k in routes && !Expired(routes[k], now) :: routes[k]
  }

  ghost function Values(routes: Routes): (values: seq<Route>)
    ensures |values| == |routes|
  {
    var keys := Sorted(routes.Keys);
    seq(|keys|, i requires 0 <= i < |keys| => assert keys[i] in keys; routes[keys[i]])
  }

  /** The unexpired routes in key order. */
  ghost function List(routes: Routes, now: nat): seq<Route> {
    Values(Live(routes, now))
  }

  /** Walks a map in key order, as an ordered map is walked. */
  method WalkValues(routes: Routes) returns (values: seq<Route>)
    ensures values == Values(routes)
  {
    var keys := Sort(routes.Keys);
    values := [];
    for i := 0 to |keys|
      invariant values == Values(routes)[..i]
    {
      assert keys[i] in keys;
      values := values + [routes[keys[i]]];
    }
  }

  method ListRoutes(routes: Routes, now: nat) returns (listed: seq<Route>)
    ensures listed == List(routes, now)
  {
    listed := WalkValues(Live(routes, now));
  }

  // ---------------------------------------------------------------- mutations

  datatype Tally = Tally(routes: Routes, changed: nat, kept: nat)

  predicate SameState(existing: Route, desired: Route) {
    existing == desired.(revision := existing.revision, expires := existing.expires)
  }

  /** One route of a request against the candidate; `seen` are the keys of the request so far. */
  function ApplyOne(t: Tally, seen: set<string>, route: RouteApply, now: nat): Result<Tally> {
    if !ValidApply(route) then Err
    else
      var key, desired := RouteKey(route.owner, route.name), Desired(route, now);
      if key in seen then Err
      else if key !in t.routes || route.revision > t.routes[key].revision then
        Ok(Tally(t.routes[key := desired], t.changed + 1, t.kept))
      else if route.revision < t.routes[key].revision || !SameState(t.routes[key], desired) then Err
      else Ok(t.(kept := t.kept + 1))
  }

  function ApplyAll(t: Tally, seen: set<string>, requests: seq<RouteApply>, now: nat): Result<Tally>
    decreases |requests|
  {
    if requests == [] then Ok(t)
    else
      var one := ApplyOne(t, seen, requests[0], now);
      if one.Err? then Err
      else ApplyAll(one.value, seen + {RouteKey(requests[0].owner, requests[0].name)}, requests[1..], now)
  }

  function DeleteOne(t: Tally, seen: set<string>, owner: string, name: string, expected: Option<nat>): Result<Tally> {
    var key := RouteKey(owner, name);
    if !ValidName(name) || name in seen then Err
    else if key !in t.routes then Ok(t.(kept := t.kept + 1))
    else if expected.Some? && expected.value != t.routes[key].revision then Err
    else Ok(Tally(t.routes - {key}, t.changed + 1, t.kept))
  }

  function DeleteAll(t: Tally, seen: set<string>, owner: string, names: seq<string>,
                     expected: Option<nat>): Result<Tally>
    decreases |names|
  {
    if names == [] then Ok(t)
    else
      var one := DeleteOne(t, seen, owner, names[0], expected);
      if one.Err? then Err else DeleteAll(one.value, seen + {names[0]}, owner, names[1..], expected)
  }

  /** Drops the smallest keys until the table fits. */
  ghost function Evict(table: map<string, Record>): (left: map<string, Record>)
    ensures |left| <= MAX_IDEMPOTENCY_RECORDS
    ensures left.Keys <= table.Keys && forall k :: k in left ==> left[k] == table[k]
    ensures |table| <= MAX_IDEMPOTENCY_RECORDS ==> left == table
    decreases |table|
  {
    if |table| <= MAX_IDEMPOTENCY_RECORDS then table
    else
      Smaller(table, Least(table.Keys));
      Evict(table - {Least(table.Keys)})
  }

  lemma Smaller(table: map<string, Record>, k: string)
    requires k in table
    ensures |table - {k}| == |table| - 1
  {
    assert (table - {k}).Keys == table.Keys - {k};
  }

  ghost function Finish(s: State, tally: Tally, request: Request, now: nat): Mutation {
    var generation := SaturatingAdd(s.generation, if tally.changed > 0 then 1 else 0);
    var result := MutationResult(generation, tally.changed, tally.kept, request.dryRun, List(tally.routes, now));
    var candidate := s.(routes := tally.routes);
    if request.dryRun then Mutation(candidate, result, false, false)
    else
      Mutation(State(generation, tally.routes, Evict(s.idempotency[request.key := Record(request, result)])),
               result, true, tally.changed > 0)
  }

  predicate WellFormed(request: Request) {
    && ValidName(request.key)
    && match request
       case ApplyRoutes(routes, _, _) => routes != []
       case DeleteRoutes(owner, names, _, _, _) => names != [] && ValidName(owner)
  }

  /** The candidate before the request: expired routes are pruned and counted as changes. */
  function Pruned(s: State, now: nat): Tally {
    var live := Live(s.routes, now);
    LiveIsFewer(s.routes, now);
    Tally(live, |s.routes| - |live|, 0)
  }

  lemma LiveIsFewer(routes: Routes, now: nat)
    ensures |Live(routes, now)| <= |routes|
    ensures |Live(routes, now)| == |routes| <==> Live(routes, now) == routes
  {
    var live := Live(routes, now);
    SubsetSize(live.Keys, routes.Keys);
    if live.Keys == routes.Keys {
      assert live == routes;
    }
  }

  function Outcome(s: State, request: Request, now: nat): Result<Tally> {
    match request
    case ApplyRoutes(routes, _, _) => ApplyAll(Pruned(s, now), {}, routes, now)
    case DeleteRoutes(owner, names, expected, _, _) => DeleteAll(Pruned(s, now), {}, owner, names, expected)
  }

  ghost function Mutate(s: State, request: Request, now: nat): Result<Mutation> {
    if !WellFormed(request) then Err
    else if request.key in s.idempotency then
      if s.idempotency[request.key].fingerprint != request then Err
      else Ok(Mutation(s, s.idempotency[request.key].result, false, false))
    else
      var outcome := Outcome(s, request, now);
      if outcome.Err? then Err else Ok(Finish(s, outcome.value, request, now))
  }

  method EvictRecords(table: map<string, Record>) returns (left: map<string, Record>)
    ensures left == Evict(table)
  {
    left := table;
    while |left| > MAX_IDEMPOTENCY_RECORDS
      invariant Evict(left) == Evict(table)
      decreases |left|
    {
      LeastExists(left.Keys);
      var oldest :| IsLeast(oldest, left.Keys);
      LeastUnique(oldest, left.Keys);
      Smaller(left, oldest);
      left := left - {oldest};
    }
  }

  method FinishMutation(s: State, tally: Tally, request: Request, now: nat) returns (m: Mutation)
    ensures m == Finish(s, tally, request, now)
  {
    var generation := SaturatingAdd(s.generation, if tally.changed > 0 then 1 else 0);
    var listed := ListRoutes(tally.routes, now);
    var result := MutationResult(generation, tally.changed, tally.kept, request.dryRun, listed);
    var state := s.(routes := tally.routes);
    if !request.dryRun {
      var table := EvictRecords(state.idempotency[request.key := Record(request, result)]);
      state := State(generation, tally.routes, table);
    }
    m := Mutation(state, result, !request.dryRun, !request.dryRun && tally.changed > 0);
  }

  method Apply(s: State, request: Request, now: nat) returns (outcome: Result<Mutation>)
    requires request.ApplyRoutes?
    ensures outcome == Mutate(s, request, now)
  {
    if request.routes == [] || !ValidName(request.key) {
      return Err;
    }
    if request.key in s.idempotency {
      if s.idempotency[request.key].fingerprint != request {
        return Err;
      }
      return Ok(Mutation(s, s.idempotency[request.key].result, false, false));
    }
    var tally, seen := Pruned(s, now), {};
    for i := 0 to |request.routes|
      invariant ApplyAll(Pruned(s, now), {}, request.routes, now) == ApplyAll(tally, seen, request.routes[i..], now)
    {
      var route := request.routes[i];
      assert request.routes[i..][0] == route && request.routes[i..][1..] == request.routes[i + 1..];
      if !ValidApply(route) {
        return Err;
      }
      var key, desired := RouteKey(route.owner, route.name), Desired(route, now);
      if key in seen {
        return Err;
      }
      seen := seen + {key};
      if key in tally.routes && route.revision == tally.routes[key].revision {
        if !SameState(tally.routes[key], desired) {
          return Err;
        }
        tally := tally.(kept := tally.kept + 1);
      } else if key in tally.routes && route.revision <= tally.routes[key].revision {
        return Err;
      } else {
        tally := Tally(tally.routes[key := desired], tally.changed + 1, tally.kept);
      }
    }
    var m := FinishMutation(s, tally, request, now);
    outcome := Ok(m);
  }

  method Delete(s: State, request: Request, now: nat) returns (outcome: Result<Mutation>)
    requires request.DeleteRoutes?
    ensures outcome == Mutate(s, request, now)
  {
    if !ValidName(request.owner) || !ValidName(request.key) || request.names == [] {
      return Err;
    }
    if request.key in s.idempotency {
      if s.idempotency[request.key].fingerprint != request {
        return Err;
      }
      return Ok(Mutation(s, s.idempotency[request.key].result, false, false));
    }
    var tally, seen := Pruned(s, now), {};
    for i := 0 to |request.names|
      invariant DeleteAll(Pruned(s, now), {}, request.owner, request.names, request.expected)
                == DeleteAll(tally, seen, request.owner, request.names[i..], request.expected)
    {
      var name := request.names[i];
      assert request.names[i..][0] == name && request.names[i..][1..] == request.names[i + 1..];
      if !ValidName(name) || name in seen {
        return Err;
      }
      seen := seen + {name};
      var key := RouteKey(request.owner, name);
      if key in tally.routes {
        if request.expected.Some? && request.expected.value != tally.routes[key].revision {
          return Err;
        }
        tally := Tally(tally.routes - {key}, tally.changed + 1, tally.kept);
      } else {
        tally := tally.(kept := tally.kept + 1);
      }
    }
    var m := FinishMutation(s, tally, request, now);
    outcome := Ok(m);
  }

  // ------------------------------------------------------------------- leases

  /** The state without its expired routes and those routes, if any has expired. */
  ghost function Expire(s: State, now: nat): Option<(State, seq<Route>)> {
    var live := Live(s.routes, now);
    if live == s.routes then None
    else Some((State(SaturatingAdd(s.generation, 1), live, s.idempotency), Values(s.routes - live.Keys)))
  }

  predicate IsNextExpiry(routes: Routes, now: nat, next: Option<nat>) {
    && (next.Some? ==> next.value > now && exists k :: k in routes && routes[k].expires == next)
    && (forall k :: k in routes && routes[k].expires.Some? && routes[k].expires.value > now ==>
          next.Some? && next.value <= routes[k].expires.value)
  }

  method NextExpiry(routes: Routes, now: nat) returns (next: Option<nat>)
    ensures IsNextExpiry(routes, now, next)
  {
    next := None;
    var left := routes.Keys;
    while left != {}
      invariant left <= routes.Keys
      invariant IsNextExpiry(map k | k in routes && k !in left :: routes[k], now, next)
      decreases |left|
    {
      var k :| k in left;
      var expires := routes[k].expires;
      if expires.Some? && expires.value > now && (next.None? || expires.value < next.value) {
        next := expires;
      }
      ghost var before := map j | j in routes && j !in left :: routes[j];
      left := left - {k};
      ghost var after := map j | j in routes && j !in left :: routes[j];
      assert after == before[k := routes[k]];
      assert forall j :: j in before ==> j in after && after[j] == before[j];
    }
    assert (map k | k in routes && k !in left :: routes[k]) == routes;
  }
}
