/** What every run of applications, deletions and expiries keeps of the desired routes. */
module ExtensionRuns {
  import opened Outcomes
  import opened Text
  import opened Extensions

  // --------------------------------------------------------- one request's walk

  /** A later candidate of an application: nothing is lost, and a route changes only to a newer revision. */
  ghost predicate Newer(a: Tally, b: Tally) {
    && a.changed <= b.changed
    && (forall k :: k in a.routes ==>
        k in b.routes && (b.routes[k] == a.routes[k] || b.routes[k].revision > a.routes[k].revision))
    && (b.changed == a.changed <==> b.routes == a.routes)
  }

  ghost predicate AllLive(routes: Routes, now: nat) {
    forall k :: k in routes ==> !Expired(routes[k], now)
  }

  /** Leases that start at `now` end later: the clock is far from its last value. */
  predicate ClockHasRoom(now: nat) {
    now + MAX_ROUTE_TTL_SECONDS <= U64_MAX
  }

  lemma ApplyOneIsNewer(t: Tally, seen: set<string>, route: RouteApply, now: nat)
    requires ApplyOne(t, seen, route, now).Ok?
    ensures Newer(t, ApplyOne(t, seen, route, now).value)
    ensures ClockHasRoom(now) && AllLive(t.routes, now) ==> AllLive(ApplyOne(t, seen, route, now).value.routes, now)
  {
    var key := RouteKey(route.owner, route.name);
    var next := ApplyOne(t, seen, route, now).value;
    if next.changed != t.changed && key in t.routes {
      assert next.routes[key].revision > t.routes[key].revision;
    }
  }

  lemma NewerComposes(a: Tally, b: Tally, c: Tally)
    requires Newer(a, b) && Newer(b, c)
    ensures Newer(a, c)
  {
    if a.routes == c.routes {
      assert forall k :: k in a.routes ==> b.routes[k] == a.routes[k];
      forall k | k in b.routes
        ensures k in a.routes
      {
        assert k in c.routes;
      }
      assert b.routes == a.routes;
    }
  }

  lemma {:induction false} ApplyAllIsNewer(t: Tally, seen: set<string>, requests: seq<RouteApply>, now: nat)
    requires ApplyAll(t, seen, requests, now).Ok?
    ensures Newer(t, ApplyAll(t, seen, requests, now).value)
    ensures ClockHasRoom(now) && AllLive(t.routes, now) ==> AllLive(ApplyAll(t, seen, requests, now).value.routes, now)
    decreases |requests|
  {
    if requests != [] {
      var one := ApplyOne(t, seen, requests[0], now).value;
      var key := RouteKey(requests[0].owner, requests[0].name);
      ApplyOneIsNewer(t, seen, requests[0], now);
      ApplyAllIsNewer(one, seen + {key}, requests[1..], now);
      NewerComposes(t, one, ApplyAll(t, seen, requests, now).value);
    }
  }

  /** A later candidate of a deletion: some keys are gone, the rest is untouched. */
  ghost predicate Fewer(a: Tally, b: Tally) {
    && a.changed <= b.changed
    && (forall k :: k in b.routes ==> k in a.routes && b.routes[k] == a.routes[k])
    && (b.changed == a.changed <==> b.routes == a.routes)
  }

  lemma {:induction false} DeleteAllIsFewer(t: Tally, seen: set<string>, owner: string, names: seq<string>,
                                            expected: Option<nat>)
    requires DeleteAll(t, seen, owner, names, expected).Ok?
    ensures Fewer(t, DeleteAll(t, seen, owner, names, expected).value)
    decreases |names|
  {
    if names != [] {
      var one := DeleteOne(t, seen, owner, names[0], expected).value;
      assert Fewer(t, one);
      DeleteAllIsFewer(one, seen + {names[0]}, owner, names[1..], expected);
    }
  }

  /** What a request does to the routes that were live, and when its count of changes is zero. */
  lemma OutcomeOnLive(s: State, request: Request, now: nat)
    requires Outcome(s, request, now).Ok?
    ensures var t := Outcome(s, request, now).value;
            && (forall k :: k in s.routes && !Expired(s.routes[k], now) && k in t.routes ==>
                  t.routes[k] == s.routes[k] || t.routes[k].revision > s.routes[k].revision)
            && (ClockHasRoom(now) ==> (t.changed == 0 <==> t.routes == s.routes))
  {
    var p, t := Pruned(s, now), Outcome(s, request, now).value;
    LiveIsFewer(s.routes, now);
    if request.ApplyRoutes? {
      ApplyAllIsNewer(p, {}, request.routes, now);
    } else {
      DeleteAllIsFewer(p, {}, request.owner, request.names, request.expected);
    }
    if ClockHasRoom(now) && t.routes == s.routes {
      assert AllLive(t.routes, now);
      assert p.routes == s.routes;
    }
  }

  // --------------------------------------------------------------------- steps

  datatype Change = Mutating(request: Request, now: nat) | Expiring(now: nat)

  /** The state that is on disk after a change. */
  ghost function Next(s: State, c: Change): State {
    match c
    case Mutating(request, now) =>
      var outcome := Mutate(s, request, now);
      if outcome.Ok? && outcome.value.persist then outcome.value.state else s
    case Expiring(now) => if Expire(s, now).Some? then Expire(s, now).value.0 else s
  }

  /** The state on disk moves only through a finished, persisted request. */
  lemma MutatingMoves(s: State, request: Request, now: nat)
    ensures var next := Next(s, Mutating(request, now));
            || next == s
            || (&& Outcome(s, request, now).Ok? && !request.dryRun && request.key !in s.idempotency
                && next == Finish(s, Outcome(s, request, now).value, request, now).state)
  {
  }

  /** A live key's route changes only to a larger revision. */
  lemma LiveRoutesAdvance(s: State, c: Change, k: string)
    requires k in s.routes && !Expired(s.routes[k], c.now) && k in Next(s, c).routes
    ensures Next(s, c).routes[k] == s.routes[k] || Next(s, c).routes[k].revision > s.routes[k].revision
  {
    if c.Mutating? && Outcome(s, c.request, c.now).Ok? {
      OutcomeOnLive(s, c.request, c.now);
    }
  }

  /** The generation counts the changes of the route map, one by one. */
  lemma GenerationCountsChanges(s: State, c: Change)
    requires ClockHasRoom(c.now) && s.generation < U64_MAX
    ensures Next(s, c).generation == s.generation + (if Next(s, c).routes != s.routes then 1 else 0)
  {
    if c.Mutating? {
      MutatingMoves(s, c.request, c.now);
      if Next(s, c) != s {
        OutcomeOnLive(s, c.request, c.now);
        FinishCounts(s, Outcome(s, c.request, c.now).value, c.request, c.now);
      }
    }
  }

  lemma FinishCounts(s: State, tally: Tally, request: Request, now: nat)
    requires !request.dryRun && s.generation < U64_MAX
    ensures var next := Finish(s, tally, request, now).state;
            next.routes == tally.routes && next.generation == s.generation + (if tally.changed > 0 then 1 else 0)
  {
  }

  lemma RecordsKept(s: State, c: Change, key: string)
    ensures key in s.idempotency && key in Next(s, c).idempotency ==> Next(s, c).idempotency[key] == s.idempotency[key]
    ensures |s.idempotency| <= MAX_IDEMPOTENCY_RECORDS ==> |Next(s, c).idempotency| <= MAX_IDEMPOTENCY_RECORDS
  {
  }

  /**
   Which new record survives its own insertion: with a full table, every one but
   that with the smallest key.
   */
  lemma NewRecordKept(s: State, request: Request, now: nat)
    requires |s.idempotency| <= MAX_IDEMPOTENCY_RECORDS && request.key !in s.idempotency && !request.dryRun
    requires WellFormed(request) && Outcome(s, request, now).Ok?
    ensures request.key in Next(s, Mutating(request, now)).idempotency <==>
              |s.idempotency| < MAX_IDEMPOTENCY_RECORDS || !IsLeast(request.key, s.idempotency.Keys + {request.key})
  {
    MutatingMoves(s, request, now);
    var m := Finish(s, Outcome(s, request, now).value, request, now);
    EvictAfterInsert(s.idempotency, request.key, Record(request, m.result));
    assert Next(s, Mutating(request, now)) == m.state;
  }

  lemma EvictAfterInsert(table: map<string, Record>, key: string, record: Record)
    requires |table| <= MAX_IDEMPOTENCY_RECORDS && key !in table
    ensures key in Evict(table[key := record]) <==>
              |table| < MAX_IDEMPOTENCY_RECORDS || !IsLeast(key, table.Keys + {key})
  {
    var full := table[key := record];
    assert full.Keys == table.Keys + {key};
    if |full| > MAX_IDEMPOTENCY_RECORDS {
      var least := Least(full.Keys);
      Smaller(full, least);
      assert Evict(full) == full - {least};
      if IsLeast(key, full.Keys) {
        LeastUnique(key, full.Keys);
      }
    }
  }

  // ---------------------------------------------------------------------- runs

  ghost function Run(s: State, changes: seq<Change>): State
    decreases |changes|
  {
    if changes == [] then s else Run(Next(s, changes[0]), changes[1..])
  }

  /** The key has an unexpired route at every moment of the run. */
  ghost predicate LiveThroughout(s: State, changes: seq<Change>, k: string)
    decreases |changes|
  {
    && k in s.routes
    && (changes != [] ==> !Expired(s.routes[k], changes[0].now) && LiveThroughout(Next(s, changes[0]), changes[1..], k))
  }

  /** A live key's revision never decreases, and its route changes only with a larger one. */
  lemma {:induction false} RevisionsNeverDecrease(s: State, changes: seq<Change>, k: string)
    requires LiveThroughout(s, changes, k)
    ensures k in Run(s, changes).routes
    ensures Run(s, changes).routes[k] == s.routes[k] || Run(s, changes).routes[k].revision > s.routes[k].revision
    decreases |changes|
  {
    if changes != [] {
      LiveRoutesAdvance(s, changes[0], k);
      RevisionsNeverDecrease(Next(s, changes[0]), changes[1..], k);
    }
  }

  ghost function MapChanges(s: State, changes: seq<Change>): nat
    decreases |changes|
  {
    if changes == [] then 0
    else (if Next(s, changes[0]).routes != s.routes then 1 else 0) + MapChanges(Next(s, changes[0]), changes[1..])
  }

  ghost predicate ClockHasRoomThroughout(changes: seq<Change>) {
    forall i :: 0 <= i < |changes| ==> ClockHasRoom(changes[i].now)
  }

  /** Over a run the generation grows by exactly the number of changes that altered the route map. */
  lemma {:induction false} GenerationsCount(s: State, changes: seq<Change>)
    requires ClockHasRoomThroughout(changes) && s.generation + |changes| <= U64_MAX
    ensures Run(s, changes).generation == s.generation + MapChanges(s, changes)
    decreases |changes|
  {
    if changes != [] {
      GenerationCountsChanges(s, changes[0]);
      GenerationsCount(Next(s, changes[0]), changes[1..]);
    }
  }

  ghost predicate RetainedThroughout(s: State, changes: seq<Change>, key: string)
    decreases |changes|
  {
    key in s.idempotency && (changes != [] ==> RetainedThroughout(Next(s, changes[0]), changes[1..], key))
  }

  lemma {:induction false} RecordUnchanged(s: State, changes: seq<Change>, key: string)
    requires RetainedThroughout(s, changes, key)
    ensures key in Run(s, changes).idempotency && Run(s, changes).idempotency[key] == s.idempotency[key]
    decreases |changes|
  {
    if changes != [] {
      RecordsKept(s, changes[0], key);
      RecordUnchanged(Next(s, changes[0]), changes[1..], key);
    }
  }

  /**
   A request repeated after any run that retained its key gets its first result
   again and changes nothing; a different request under that key is refused.
   */
  lemma ReplaysExactly(s: State, request: Request, now: nat, changes: seq<Change>, other: Request, later: nat)
    requires request.key !in s.idempotency && Mutate(s, request, now).Ok? && !request.dryRun
    requires RetainedThroughout(Next(s, Mutating(request, now)), changes, request.key)
    requires other.key == request.key
    ensures var end := Run(Next(s, Mutating(request, now)), changes);
            && Mutate(end, request, later) == Ok(Mutation(end, Mutate(s, request, now).value.result, false, false))
            && (other != request ==> Mutate(end, other, later).Err?)
  {
    RecordUnchanged(Next(s, Mutating(request, now)), changes, request.key);
  }

  lemma {:induction false} TableBounded(s: State, changes: seq<Change>)
    requires |s.idempotency| <= MAX_IDEMPOTENCY_RECORDS
    ensures |Run(s, changes).idempotency| <= MAX_IDEMPOTENCY_RECORDS
    decreases |changes|
  {
    if changes != [] {
      RecordsKept(s, changes[0], "");
      TableBounded(Next(s, changes[0]), changes[1..]);
    }
  }

  // ------------------------------------------------------------ owner isolation

  predicate SlashFree(name: string) {
    '/' !in name
  }

  /** Owner and name of one route continue into the other's name and owner across a slash. */
  predicate Shifted(owner: string, name: string, owner': string, name': string) {
    && |owner| < |owner'|
    && owner' == owner + "/" + owner'[|owner| + 1..]
    && name == owner'[|owner| + 1..] + "/" + name'
  }

  /** Two routes share a key exactly when they are one or one is shifted across a slash. */
  lemma SharedKeys(owner: string, name: string, owner': string, name': string)
    ensures RouteKey(owner, name) == RouteKey(owner', name') <==>
              || (owner == owner' && name == name')
              || Shifted(owner, name, owner', name') || Shifted(owner', name', owner, name)
  {
    var k, k' := RouteKey(owner, name), RouteKey(owner', name');
    if k == k' {
      if |owner| == |owner'| {
        assert owner == k[..|owner|] && name == k[|owner| + 1..];
        assert owner' == k'[..|owner|] && name' == k'[|owner| + 1..];
      } else if |owner| < |owner'| {
        SharedKeyShifts(owner, name, owner', name');
      } else {
        SharedKeyShifts(owner', name', owner, name);
      }
    }
    if Shifted(owner, name, owner', name') {
      ShiftedShares(owner, name, owner', name');
    }
    if Shifted(owner', name', owner, name) {
      ShiftedShares(owner', name', owner, name);
    }
  }

  lemma ShiftedShares(owner: string, name: string, owner': string, name': string)
    requires Shifted(owner, name, owner', name')
    ensures RouteKey(owner, name) == RouteKey(owner', name') && !SlashFree(name)
  {
    var middle := owner'[|owner| + 1..];
    assert RouteKey(owner, name) == owner + "/" + middle + "/" + name' == RouteKey(owner', name');
    assert name[|middle|] == '/';
  }

  lemma SharedKeyShifts(owner: string, name: string, owner': string, name': string)
    requires RouteKey(owner, name) == RouteKey(owner', name') && |owner| < |owner'|
    ensures Shifted(owner, name, owner', name')
  {
    var k, k' := RouteKey(owner, name), RouteKey(owner', name');
    var n, n' := |owner|, |owner'|;
    assert owner == k[..n] && owner' == k'[..n'] && k[n] == '/' && k'[n'] == '/';
    assert name == k[n + 1..] && name' == k'[n' + 1..];
    assert owner' == k[..n] + [k[n]] + k[n + 1..n'];
    assert owner'[n + 1..] == k[n + 1..n'];
    assert name == k[n + 1..n'] + [k[n']] + k[n' + 1..];
  }

  predicate CleanRequest(request: Request) {
    match request
    case ApplyRoutes(routes, _, _) => forall i :: 0 <= i < |routes| ==> SlashFree(routes[i].name)
    case DeleteRoutes(_, names, _, _, _) => forall i :: 0 <= i < |names| ==> SlashFree(names[i])
  }

  predicate ActsFor(request: Request, owner: string) {
    match request
    case ApplyRoutes(routes, _, _) => exists i :: 0 <= i < |routes| && routes[i].owner == owner
    case DeleteRoutes(o, _, _, _, _) => o == owner
  }

  lemma {:induction false} ApplyAllElsewhere(t: Tally, seen: set<string>, requests: seq<RouteApply>, now: nat,
                                             k: string)
    requires ApplyAll(t, seen, requests, now).Ok?
    requires forall i :: 0 <= i < |requests| ==> RouteKey(requests[i].owner, requests[i].name) != k
    ensures var r := ApplyAll(t, seen, requests, now).value.routes;
            (k in r <==> k in t.routes) && (k in r ==> r[k] == t.routes[k])
    decreases |requests|
  {
    if requests != [] {
      var one := ApplyOne(t, seen, requests[0], now).value;
      ApplyAllElsewhere(one, seen + {RouteKey(requests[0].owner, requests[0].name)}, requests[1..], now, k);
    }
  }

  lemma {:induction false} DeleteAllElsewhere(t: Tally, seen: set<string>, owner: string, names: seq<string>,
                                              expected: Option<nat>, k: string)
    requires DeleteAll(t, seen, owner, names, expected).Ok?
    requires forall i :: 0 <= i < |names| ==> RouteKey(owner, names[i]) != k
    ensures var r := DeleteAll(t, seen, owner, names, expected).value.routes;
            (k in r <==> k in t.routes) && (k in r ==> r[k] == t.routes[k])
    decreases |names|
  {
    if names != [] {
      var one := DeleteOne(t, seen, owner, names[0], expected).value;
      DeleteAllElsewhere(one, seen + {names[0]}, owner, names[1..], expected, k);
    }
  }

  lemma {:induction false} ApplyAllAvoids(t: Tally, seen: set<string>, requests: seq<RouteApply>, now: nat)
    requires ApplyAll(t, seen, requests, now).Ok?
    ensures forall i :: 0 <= i < |requests| ==> RouteKey(requests[i].owner, requests[i].name) !in seen
    decreases |requests|
  {
    if requests != [] {
      var key := RouteKey(requests[0].owner, requests[0].name);
      ApplyAllAvoids(ApplyOne(t, seen, requests[0], now).value, seen + {key}, requests[1..], now);
      forall i | 0 <= i < |requests|
        ensures RouteKey(requests[i].owner, requests[i].name) !in seen
      {
        if i > 0 {
          assert requests[1..][i - 1] == requests[i];
        }
      }
    }
  }

  /** An item of another owner that reaches an existing key and is accepted takes the route over. */
  lemma {:induction false} ApplyAllTakesOver(t: Tally, seen: set<string>, requests: seq<RouteApply>, now: nat,
                                             k: string, i: nat)
    requires ApplyAll(t, seen, requests, now).Ok? && k in t.routes && i < |requests|
    requires RouteKey(requests[i].owner, requests[i].name) == k && requests[i].owner != t.routes[k].owner
    ensures var r := ApplyAll(t, seen, requests, now).value.routes; k in r && r[k].owner == requests[i].owner
    decreases |requests|
  {
    var one := ApplyOne(t, seen, requests[0], now).value;
    var key := RouteKey(requests[0].owner, requests[0].name);
    ApplyAllAvoids(one, seen + {key}, requests[1..], now);
    if i == 0 {
      ApplyAllElsewhere(one, seen + {key}, requests[1..], now, k);
    } else {
      assert requests[1..][i - 1] == requests[i];
      ApplyAllTakesOver(one, seen + {key}, requests[1..], now, k, i - 1);
    }
  }

  lemma {:induction false} DeleteAllRemoves(t: Tally, seen: set<string>, owner: string, names: seq<string>,
                                            expected: Option<nat>, k: string, i: nat)
    requires DeleteAll(t, seen, owner, names, expected).Ok? && i < |names| && RouteKey(owner, names[i]) == k
    ensures k !in DeleteAll(t, seen, owner, names, expected).value.routes
    decreases |names|
  {
    var one := DeleteOne(t, seen, owner, names[0], expected).value;
    if i == 0 {
      DeleteAllIsFewer(one, seen + {names[0]}, owner, names[1..], expected);
    } else {
      assert names[1..][i - 1] == names[i];
      DeleteAllRemoves(one, seen + {names[0]}, owner, names[1..], expected, k, i - 1);
    }
  }

  predicate Collide(owner: string, name: string, route: Route) {
    Shifted(owner, name, route.owner, route.name) || Shifted(route.owner, route.name, owner, name)
  }

  /** Some item of the request is shifted across a slash onto the route's key. */
  predicate ReachesAcross(request: Request, route: Route) {
    match request
    case ApplyRoutes(routes, _, _) => exists i :: 0 <= i < |routes| && Collide(routes[i].owner, routes[i].name, route)
    case DeleteRoutes(owner, names, _, _, _) => exists i :: 0 <= i < |names| && Collide(owner, names[i], route)
  }

  ghost predicate Untouched(routes: Routes, k: string, route: Route) {
    k in routes && routes[k] == route
  }

  lemma ApplyIsolation(s: State, request: Request, now: nat, k: string)
    requires request.ApplyRoutes? && Outcome(s, request, now).Ok? && k in s.routes
    requires k == RouteKey(s.routes[k].owner, s.routes[k].name)
    requires !Expired(s.routes[k], now) && !ActsFor(request, s.routes[k].owner)
    ensures Untouched(Outcome(s, request, now).value.routes, k, s.routes[k]) <==> !ReachesAcross(request, s.routes[k])
  {
    var route, items := s.routes[k], request.routes;
    if ReachesAcross(request, route) {
      var i :| 0 <= i < |items| && Collide(items[i].owner, items[i].name, route);
      SharedKeys(items[i].owner, items[i].name, route.owner, route.name);
      ApplyAllTakesOver(Pruned(s, now), {}, items, now, k, i);
    } else {
      forall i | 0 <= i < |items|
        ensures RouteKey(items[i].owner, items[i].name) != k
      {
        SharedKeys(items[i].owner, items[i].name, route.owner, route.name);
        assert !Collide(items[i].owner, items[i].name, route);
      }
      ApplyAllElsewhere(Pruned(s, now), {}, items, now, k);
    }
  }

  lemma DeleteIsolation(s: State, request: Request, now: nat, k: string)
    requires request.DeleteRoutes? && Outcome(s, request, now).Ok? && k in s.routes
    requires k == RouteKey(s.routes[k].owner, s.routes[k].name)
    requires !Expired(s.routes[k], now) && !ActsFor(request, s.routes[k].owner)
    ensures Untouched(Outcome(s, request, now).value.routes, k, s.routes[k]) <==> !ReachesAcross(request, s.routes[k])
  {
    var route := s.routes[k];
    var DeleteRoutes(owner, names, expected, _, _) := request;
    if ReachesAcross(request, route) {
      var i :| 0 <= i < |names| && Collide(owner, names[i], route);
      SharedKeys(owner, names[i], route.owner, route.name);
      DeleteAllRemoves(Pruned(s, now), {}, owner, names, expected, k, i);
    } else {
      forall i | 0 <= i < |names|
        ensures RouteKey(owner, names[i]) != k
      {
        SharedKeys(owner, names[i], route.owner, route.name);
        assert !Collide(owner, names[i], route);
      }
      DeleteAllElsewhere(Pruned(s, now), {}, owner, names, expected, k);
    }
  }

  /**
   Owner isolation, exactly: an accepted request that does not act for a route's
   owner leaves the unexpired route alone if and only if none of its items is
   shifted across a slash onto the route's key.
   */
  lemma IsolationExactly(s: State, request: Request, now: nat, k: string)
    requires Mutate(s, request, now).Ok? && !request.dryRun && request.key !in s.idempotency
    requires k in s.routes && k == RouteKey(s.routes[k].owner, s.routes[k].name)
    requires !Expired(s.routes[k], now) && !ActsFor(request, s.routes[k].owner)
    ensures Untouched(Next(s, Mutating(request, now)).routes, k, s.routes[k]) <==> !ReachesAcross(request, s.routes[k])
  {
    var outcome := Outcome(s, request, now);
    assert Next(s, Mutating(request, now)).routes == outcome.value.routes;
    if request.ApplyRoutes? {
      ApplyIsolation(s, request, now, k);
    } else {
      DeleteIsolation(s, request, now, k);
    }
  }

  lemma CleanReachesNobody(request: Request, route: Route)
    requires CleanRequest(request) && SlashFree(route.name)
    ensures !ReachesAcross(request, route)
  {
    forall owner: string, name: string | SlashFree(name) && Collide(owner, name, route)
      ensures false
    {
      if Shifted(owner, name, route.owner, route.name) {
        ShiftedShares(owner, name, route.owner, route.name);
      } else {
        ShiftedShares(route.owner, route.name, owner, name);
      }
    }
  }

  /** With slash-free names, a request that does not act for a route's owner leaves the unexpired route alone. */
  lemma OwnersIsolated(s: State, c: Change, k: string)
    requires k in s.routes && k == RouteKey(s.routes[k].owner, s.routes[k].name) && SlashFree(s.routes[k].name)
    requires c.Mutating? ==> CleanRequest(c.request) && !ActsFor(c.request, s.routes[k].owner)
    requires !Expired(s.routes[k], c.now)
    ensures Untouched(Next(s, c).routes, k, s.routes[k])
  {
    if c.Mutating? {
      MutatingMoves(s, c.request, c.now);
      if Next(s, c) != s {
        CleanReachesNobody(c.request, s.routes[k]);
        if c.request.ApplyRoutes? {
          ApplyIsolation(s, c.request, c.now, k);
        } else {
          DeleteIsolation(s, c.request, c.now, k);
        }
      }
    }
  }

  /** So no run of other owners' requests and of expiries touches the route before its lease ends. */
  lemma {:induction false} OwnersIsolatedForever(s: State, changes: seq<Change>, k: string)
    requires k in s.routes && k == RouteKey(s.routes[k].owner, s.routes[k].name) && SlashFree(s.routes[k].name)
    requires forall i :: 0 <= i < |changes| ==>
               && !Expired(s.routes[k], changes[i].now)
               && (changes[i].Mutating? ==>
                   CleanRequest(changes[i].request) && !ActsFor(changes[i].request, s.routes[k].owner))
    ensures Untouched(Run(s, changes).routes, k, s.routes[k])
    decreases |changes|
  {
    if changes != [] {
      OwnersIsolated(s, changes[0], k);
      OwnersIsolatedForever(Next(s, changes[0]), changes[1..], k);
    }
  }

  /** A first request that deletes one route by its key, whoever owns it. */
  lemma DeletesByKey(s: State, owner: string, name: string, key: string, now: nat)
    requires ValidName(owner) && ValidName(name) && ValidName(key) && s.idempotency == map[]
    requires RouteKey(owner, name) in Live(s.routes, now)
    ensures Next(s, Mutating(DeleteRoutes(owner, [name], None, false, key), now)).routes ==
            Live(s.routes, now) - {RouteKey(owner, name)}
  {
    var request, p := DeleteRoutes(owner, [name], None, false, key), Pruned(s, now);
    var one := DeleteOne(p, {}, owner, name, None);
    assert request.names[1..] == [];
    assert DeleteAll(p, {}, owner, [name], None) == DeleteAll(one.value, {name}, owner, [], None);
  }

  lemma ExampleNames()
    ensures RouteKey("a", "b/c") == "a/b/c" == RouteKey("a/b", "c")
    ensures ValidName("a") && ValidName("b/c") && ValidName("k")
  {
    assert "a" + "/" + "b/c" == "a/b/c" == "a/b" + "/" + "c";
  }

  /** Without that, isolation fails: the owner "a" deletes the route "c" of the owner "a/b". */
  lemma SlashesBreakIsolation(route: Route, now: nat)
    requires route.owner == "a/b" && route.name == "c" && route.expires.None?
    ensures var s := State(1, map["a/b/c" := route], map[]);
            var request := DeleteRoutes("a", ["b/c"], None, false, "k");
            && "a/b/c" == RouteKey(route.owner, route.name)
            && !ActsFor(request, route.owner)
            && Next(s, Mutating(request, now)).routes == map[]
  {
    var s := State(1, map["a/b/c" := route], map[]);
    ExampleNames();
    assert Live(s.routes, now) == s.routes;
    DeletesByKey(s, "a", "b/c", "k", now);
  }

  // --------------------------------------------------------------------- leases

  /** Until the next expiry the listing does not change. */
  lemma ListingSteady(routes: Routes, now: nat, next: Option<nat>, t: nat)
    requires IsNextExpiry(routes, now, next) && now <= t && (next.Some? ==> t < next.value)
    ensures List(routes, t) == List(routes, now)
  {
    assert Live(routes, t) == Live(routes, now);
  }

  /** At the next expiry it does. */
  lemma ListingChanges(routes: Routes, now: nat, next: Option<nat>)
    requires IsNextExpiry(routes, now, next) && next.Some?
    ensures |List(routes, next.value)| < |List(routes, now)|
  {
    var before, after := Live(routes, now), Live(routes, next.value);
    var k :| k in routes && routes[k].expires == next;
    assert k in before && k !in after;
    SubsetSize(after.Keys, before.Keys);
  }

  /** An expiry pass finds nothing exactly when the listing omits no stored route. */
  lemma ExpireExactly(s: State, t: nat)
    ensures Expire(s, t).None? <==> |List(s.routes, t)| == |s.routes|
    ensures Expire(s, t).Some? ==>
              var (after, gone) := Expire(s, t).value;
              && List(after.routes, t) == List(s.routes, t) == Values(after.routes)
              && |gone| + |after.routes| == |s.routes|
              && (forall i :: 0 <= i < |gone| ==> Expired(gone[i], t))
  {
    LiveIsFewer(s.routes, t);
    var live := Live(s.routes, t);
    var gone := s.routes - live.Keys;
    assert Live(live, t) == live;
    assert s.routes.Keys == live.Keys + gone.Keys;
    forall i | 0 <= i < |Values(gone)|
      ensures Expired(Values(gone)[i], t)
    {
      assert Sorted(gone.Keys)[i] in gone.Keys;
    }
  }
}
