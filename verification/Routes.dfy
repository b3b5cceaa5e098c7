/**
 The route registry and its composition. Endpoint ids and prefixes are represented by
 their canonical texts, which is what the registry sorts by and which determine them.
 */
module Routes {
  import opened Outcomes
  import opened Text

  const ROUTE_FILE_VERSION: nat := 1

  datatype Origin = Origin(endpoint: string, prefixes: seq<string>)

  /** One claim: an owner and a prefix. */
  type Claim = (string, string)

  // ------------------------------------------------------------ what it denotes

  ghost function Claims(routes: seq<Origin>): set<Claim> {
    set i, j | 0 <= i < |routes| && 0 <= j < |routes[i].prefixes| :: (routes[i].endpoint, routes[i].prefixes[j])
  }

  ghost function Owners(claims: set<Claim>): set<string> {
    set c | c in claims :: c.0
  }

  ghost function PrefixesOf(claims: set<Claim>, owner: string): set<string> {
    set c | c in claims && c.0 == owner :: c.1
  }

  /** Owners in order, each once, with its prefixes in order, each once. */
  ghost predicate Canonical(routes: seq<Origin>) {
    && (forall i, j :: 0 <= i < j < |routes| ==> Before(routes[i].endpoint, routes[j].endpoint))
    && (forall i :: 0 <= i < |routes| ==> routes[i].prefixes != [] && Ascending(routes[i].prefixes))
  }

  ghost function Listing(owners: seq<string>, claims: set<Claim>): (routes: seq<Origin>)
    ensures |routes| == |owners|
    ensures forall i :: 0 <= i < |owners| ==> routes[i] == Origin(owners[i], Sorted(PrefixesOf(claims, owners[i])))
  {
    seq(|owners|, i requires 0 <= i < |owners| => Origin(owners[i], Sorted(PrefixesOf(claims, owners[i]))))
  }

  /** The one canonical registry for a set of claims. */
  ghost function Registry(claims: set<Claim>): seq<Origin> {
    Listing(Sorted(Owners(claims)), claims)
  }

  ghost predicate NonEmpty(routes: seq<Origin>) {
    forall i :: 0 <= i < |routes| ==> routes[i].prefixes != []
  }

  lemma OwnerListed(claims: set<Claim>, i: nat)
    requires i < |Sorted(Owners(claims))|
    ensures var owner := Sorted(Owners(claims))[i];
            exists x :: (owner, x) in claims && x in PrefixesOf(claims, owner)
  {
    var owner := Sorted(Owners(claims))[i];
    assert owner in Sorted(Owners(claims));
    var c :| c in claims && c.0 == owner;
    assert (owner, c.1) == c;
    assert c.1 in PrefixesOf(claims, owner);
  }

  lemma RegistryCanonical(claims: set<Claim>)
    ensures Canonical(Registry(claims))
  {
    var routes := Registry(claims);
    SortedAscends(Owners(claims));
    forall i | 0 <= i < |routes|
      ensures routes[i].prefixes != [] && Ascending(routes[i].prefixes)
    {
      SortedAscends(PrefixesOf(claims, routes[i].endpoint));
      OwnerListed(claims, i);
    }
  }

  lemma RegistryComplete(claims: set<Claim>, c: Claim)
    requires c in claims
    ensures c in Claims(Registry(claims))
  {
    var routes := Registry(claims);
    assert c.0 in Sorted(Owners(claims));
    var i :| 0 <= i < |routes| && routes[i].endpoint == c.0;
    assert c.1 in PrefixesOf(claims, c.0);
    assert c.1 in routes[i].prefixes;
    var j :| 0 <= j < |routes[i].prefixes| && routes[i].prefixes[j] == c.1;
    assert c == (routes[i].endpoint, routes[i].prefixes[j]);
  }

  lemma RegistrySound(claims: set<Claim>, c: Claim)
    requires c in Claims(Registry(claims))
    ensures c in claims
  {
    var routes := Registry(claims);
    var i, j :| 0 <= i < |routes| && 0 <= j < |routes[i].prefixes| && c == (routes[i].endpoint, routes[i].prefixes[j]);
    assert c.1 in routes[i].prefixes;
    assert c.1 in PrefixesOf(claims, c.0);
  }

  /** The registry of a set of claims denotes that set and is canonical. */
  lemma RegistryDenotes(claims: set<Claim>)
    ensures Claims(Registry(claims)) == claims
    ensures Canonical(Registry(claims)) && NonEmpty(Registry(claims))
  {
    RegistryCanonical(claims);
    forall c | c in claims
      ensures c in Claims(Registry(claims))
    {
      RegistryComplete(claims, c);
    }
    forall c | c in Claims(Registry(claims))
      ensures c in claims
    {
      RegistrySound(claims, c);
    }
  }

  lemma CanonicalPrefixes(routes: seq<Origin>, i: nat)
    requires Canonical(routes) && i < |routes|
    ensures routes[i].prefixes == Sorted(PrefixesOf(Claims(routes), routes[i].endpoint))
  {
    var claims, owner := Claims(routes), routes[i].endpoint;
    forall x
      ensures x in routes[i].prefixes <==> x in PrefixesOf(claims, owner)
    {
      if x in routes[i].prefixes {
        var j :| 0 <= j < |routes[i].prefixes| && routes[i].prefixes[j] == x;
        assert (owner, x) in claims;
      }
      if x in PrefixesOf(claims, owner) {
        assert (owner, x) in claims;
        var k, j :| 0 <= k < |routes| && 0 <= j < |routes[k].prefixes| &&
                    (owner, x) == (routes[k].endpoint, routes[k].prefixes[j]);
        BeforeTotal(owner, owner);
        assert k == i;
      }
    }
    AscendingUnique(routes[i].prefixes, PrefixesOf(claims, owner));
  }

  /** A canonical registry is determined by the claims it denotes. */
  lemma CanonicalUnique(routes: seq<Origin>)
    requires Canonical(routes)
    ensures routes == Registry(Claims(routes))
  {
    var claims := Claims(routes);
    var owners := seq(|routes|, i requires 0 <= i < |routes| => routes[i].endpoint);
    forall x
      ensures x in owners <==> x in Owners(claims)
    {
      if x in owners {
        var i :| 0 <= i < |owners| && owners[i] == x;
        assert (x, routes[i].prefixes[0]) in claims;
      }
      if x in Owners(claims) {
        var c :| c in claims && c.0 == x;
        var i, j :| 0 <= i < |routes| && 0 <= j < |routes[i].prefixes| &&
                    c == (routes[i].endpoint, routes[i].prefixes[j]);
        assert owners[i] == x;
      }
    }
    AscendingUnique(owners, Owners(claims));
    forall i | 0 <= i < |routes|
      ensures routes[i] == Registry(claims)[i]
    {
      CanonicalPrefixes(routes, i);
    }
  }

  lemma ClaimsOfSum(a: seq<Origin>, b: seq<Origin>)
    ensures Claims(a + b) == Claims(a) + Claims(b)
    ensures NonEmpty(a + b) <==> NonEmpty(a) && NonEmpty(b)
  {
    var both := a + b;
    forall c | c in Claims(a)
      ensures c in Claims(both)
    {
      var i, j :| 0 <= i < |a| && 0 <= j < |a[i].prefixes| && c == (a[i].endpoint, a[i].prefixes[j]);
      assert both[i] == a[i];
    }
    forall c | c in Claims(b)
      ensures c in Claims(both)
    {
      var i, j :| 0 <= i < |b| && 0 <= j < |b[i].prefixes| && c == (b[i].endpoint, b[i].prefixes[j]);
      assert both[|a| + i] == b[i];
    }
    forall c | c in Claims(both)
      ensures c in Claims(a) + Claims(b)
    {
      var i, j :| 0 <= i < |both| && 0 <= j < |both[i].prefixes| && c == (both[i].endpoint, both[i].prefixes[j]);
      assert both[i] == if i < |a| then a[i] else b[i - |a|];
    }
    if NonEmpty(both) {
      assert forall i :: 0 <= i < |a| ==> a[i] == both[i];
      assert forall i :: 0 <= i < |b| ==> b[i] == both[|a| + i];
    }
  }

  // ------------------------------------------------------------- normalization

  /** What normalization yields: the canonical registry of the same claims, unless an owner has no prefix. */
  ghost function Normalized(routes: seq<Origin>): Result<seq<Origin>> {
    if NonEmpty(routes) then Ok(Registry(Claims(routes))) else Err
  }

  type Grouping = map<string, seq<string>>

  ghost predicate Groups(groups: Grouping, routes: seq<Origin>) {
    && groups.Keys == Owners(Claims(routes))
    && forall o :: o in groups ==> forall x :: x in groups[o] <==> (o, x) in Claims(routes)
  }

  lemma GroupOneMore(groups: Grouping, routes: seq<Origin>, i: nat)
    requires i < |routes| && routes[i].prefixes != [] && Groups(groups, routes[..i])
    ensures var r := routes[i];
            var known := if r.endpoint in groups then groups[r.endpoint] else [];
            Groups(groups[r.endpoint := known + r.prefixes], routes[..i + 1])
  {
    var r := routes[i];
    assert routes[..i + 1] == routes[..i] + [r];
    ClaimsOfSum(routes[..i], [r]);
    var one, before, after := Claims([r]), Claims(routes[..i]), Claims(routes[..i + 1]);
    forall o: string, x: string
      ensures (o, x) in one <==> o == r.endpoint && x in r.prefixes
    {
      if o == r.endpoint && x in r.prefixes {
        var j :| 0 <= j < |r.prefixes| && r.prefixes[j] == x;
        assert [r][0].prefixes[j] == x;
      }
    }
    assert (r.endpoint, r.prefixes[0]) in one;
    assert forall o :: o in Owners(after) <==> o in Owners(before) || o == r.endpoint by {
      forall o
        ensures o in Owners(after) <==> o in Owners(before) || o == r.endpoint
      {
        if o in Owners(after) {
          var c :| c in after && c.0 == o;
        }
        if o in Owners(before) {
          var c :| c in before && c.0 == o;
          assert c in after;
        }
      }
    }
    if r.endpoint !in groups {
      assert forall x :: (r.endpoint, x) !in before;
    }
  }

  /** Collects each owner's prefixes in one pass; an owner without prefixes ends it. */
  method Group(routes: seq<Origin>) returns (groups: Grouping, ok: bool)
    ensures ok == NonEmpty(routes)
    ensures ok ==> Groups(groups, routes)
  {
    groups := map[];
    assert Claims(routes[..0]) == {};
    for i := 0 to |routes|
      invariant NonEmpty(routes[..i]) && Groups(groups, routes[..i])
    {
      var r := routes[i];
      if r.prefixes == [] {
        return groups, false;
      }
      GroupOneMore(groups, routes, i);
      var known := if r.endpoint in groups then groups[r.endpoint] else [];
      groups := groups[r.endpoint := known + r.prefixes];
    }
    assert routes[..|routes|] == routes;
    ok := true;
  }

  /** Keeps the first of equal prefixes, then sorts what is left. */
  method SortDistinct(prefixes: seq<string>) returns (sorted: seq<string>)
    ensures sorted == Sorted(set x | x in prefixes)
  {
    var seen: set<string> := {};
    for i := 0 to |prefixes|
      invariant seen == set x | x in prefixes[..i]
    {
      seen := seen + {prefixes[i]};
    }
    assert prefixes[..|prefixes|] == prefixes;
    sorted := Sort(seen);
  }

  /** The same grouping, said of the claims. */
  ghost predicate GroupsClaims(groups: Grouping, claims: set<Claim>) {
    && groups.Keys == Owners(claims)
    && forall o :: o in groups ==> (set x | x in groups[o]) == PrefixesOf(claims, o)
  }

  lemma GroupIsPrefixes(groups: Grouping, routes: seq<Origin>)
    requires Groups(groups, routes)
    ensures GroupsClaims(groups, Claims(routes))
  {
    var claims := Claims(routes);
    forall o, x | o in groups
      ensures x in groups[o] <==> x in PrefixesOf(claims, o)
    {
      assert x in groups[o] <==> (o, x) in claims;
      assert (o, x) in claims ==> (o, x).1 in PrefixesOf(claims, o);
    }
  }

  lemma ListingGrows(owners: seq<string>, claims: set<Claim>, i: nat)
    requires i < |owners|
    ensures Listing(owners[..i + 1], claims)
            == Listing(owners[..i], claims) + [Origin(owners[i], Sorted(PrefixesOf(claims, owners[i])))]
  {
  }

  method Arrange(groups: Grouping, ghost claims: set<Claim>) returns (arranged: seq<Origin>)
    requires GroupsClaims(groups, claims)
    ensures arranged == Registry(claims)
  {
    var owners := Sort(groups.Keys);
    arranged := [];
    for i := 0 to |owners|
      invariant arranged == Listing(owners[..i], claims)
    {
      assert owners[i] in owners;
      var prefixes := SortDistinct(groups[owners[i]]);
      ListingGrows(owners, claims, i);
      arranged := arranged + [Origin(owners[i], prefixes)];
    }
    assert owners[..|owners|] == owners;
  }

  class RouteRegistry {
    var version: nat
    var routes: seq<Origin>

    constructor (version: nat, routes: seq<Origin>)
      ensures this.version == version && this.routes == routes
    {
      this.version, this.routes := version, routes;
    }

    method Normalize() returns (ok: bool)
      modifies this`routes
      ensures ok == (version == ROUTE_FILE_VERSION && NonEmpty(old(routes)))
      ensures ok ==> routes == Registry(Claims(old(routes)))
      ensures !ok ==> routes == if version == ROUTE_FILE_VERSION then [] else old(routes)
    {
      if version != ROUTE_FILE_VERSION {
        return false;
      }
      var drained := routes;
      routes := [];
      var groups, grouped := Group(drained);
      if !grouped {
        return false;
      }
      GroupIsPrefixes(groups, drained);
      routes := Arrange(groups, Claims(drained));
      ok := true;
    }

    method Merge(imported: seq<Origin>) returns (ok: bool)
      modifies this`routes
      ensures ok == (version == ROUTE_FILE_VERSION && NonEmpty(old(routes)) && NonEmpty(imported))
      ensures ok ==> routes == Registry(Claims(old(routes)) + Claims(imported))
      ensures !ok ==> routes == if version == ROUTE_FILE_VERSION then [] else old(routes) + imported
    {
      ClaimsOfSum(routes, imported);
      routes := routes + imported;
      ok := Normalize();
    }

    /** The selector is a prefix, an endpoint id, or neither. */
    method Remove(selector: Selector) returns (removed: Option<nat>)
      modifies this`routes
      ensures routes == Selected(old(routes), selector)
      ensures removed.None? <==> selector.Neither?
      ensures removed.Some? ==> PrefixCount(old(routes)) == removed.value + PrefixCount(routes)
    {
      if selector.Neither? {
        return None;
      }
      SelectedIsFewer(routes, selector);
      var before := PrefixCount(routes);
      routes := Sift(routes, selector);
      removed := Some(before - PrefixCount(routes));
    }
  }

  method Sift(routes: seq<Origin>, selector: Selector) returns (left: seq<Origin>)
    requires !selector.Neither?
    ensures left == Selected(routes, selector)
  {
    left := [];
    var k := 0;
    while k < |routes|
      invariant k <= |routes|
      invariant Selected(routes, selector) == left + Selected(routes[k..], selector)
    {
      assert routes[k..][1..] == routes[k + 1..];
      var kept := Reduced(routes[k], selector);
      if kept != [] {
        left := left + [Origin(routes[k].endpoint, kept)];
      }
      k := k + 1;
    }
  }

  /** Normalizing keeps the claims, is idempotent, and depends on the claims alone. */
  lemma NormalizationIsCanonical(a: seq<Origin>, b: seq<Origin>)
    requires NonEmpty(a) && NonEmpty(b)
    ensures Normalized(a).Ok? && Claims(Normalized(a).value) == Claims(a) && Canonical(Normalized(a).value)
    ensures Normalized(Normalized(a).value) == Normalized(a)
    ensures Claims(a) == Claims(b) <==> Normalized(a) == Normalized(b)
    ensures Canonical(a) <==> Normalized(a).value == a
  {
    RegistryDenotes(Claims(a));
    RegistryDenotes(Claims(b));
    if Canonical(a) {
      CanonicalUnique(a);
    }
  }

  // --------------------------------------------------------------- composition

  /** Operator routes, then the live extension routes, normalized together. */
  ghost function Compose(operator: seq<Origin>, extension: seq<Origin>): Result<seq<Origin>> {
    Normalized(operator + extension)
  }

  /** Embedded routes stand alone when both dynamic sources are empty. */
  ghost function ComposeWithEmbedded(operator: seq<Origin>, extension: seq<Origin>,
                                     embedded: seq<Origin>): Result<seq<Origin>> {
    var dynamic := Compose(operator, extension);
    if dynamic.Err? then Err
    else if dynamic.value == [] then Ok(embedded)
    else Compose(embedded, dynamic.value)
  }

  /** The result of a composition, said with claims alone. */
  ghost predicate IsUnion(result: Result<seq<Origin>>, a: seq<Origin>, b: seq<Origin>) {
    if NonEmpty(a) && NonEmpty(b) then
      && result == Ok(Registry(Claims(a) + Claims(b)))
      && Claims(result.value) == Claims(a) + Claims(b) && NonEmpty(result.value)
    else result.Err?
  }

  lemma ComposeClaims(a: seq<Origin>, b: seq<Origin>)
    ensures IsUnion(Compose(a, b), a, b)
  {
    ClaimsOfSum(a, b);
    RegistryDenotes(Claims(a) + Claims(b));
  }

  /** Composition is union, so the order of its sources does not matter. */
  lemma CompositionCommutes(a: seq<Origin>, b: seq<Origin>)
    ensures Compose(a, b) == Compose(b, a)
    ensures Compose(a, b).Ok? ==> Claims(Compose(a, b).value) == Claims(a) + Claims(b) && Canonical(Compose(a, b).value)
  {
    ComposeClaims(a, b);
    ComposeClaims(b, a);
    assert Claims(a) + Claims(b) == Claims(b) + Claims(a);
    RegistryCanonical(Claims(a) + Claims(b));
  }

  /** Nor does the grouping of merges, nor whether a source was already composed. */
  lemma CompositionAssociates(a: seq<Origin>, b: seq<Origin>, c: seq<Origin>, ab: seq<Origin>, bc: seq<Origin>)
    requires NonEmpty(a) && NonEmpty(b) && NonEmpty(c)
    requires Compose(a, b) == Ok(ab) && Compose(b, c) == Ok(bc)
    ensures Compose(ab, c) == Compose(a, bc)
  {
    ComposeClaims(a, b);
    ComposeClaims(b, c);
    ComposeClaims(ab, c);
    ComposeClaims(a, bc);
    UnionAssociates(Claims(a), Claims(b), Claims(c));
  }

  lemma UnionAssociates(a: set<Claim>, b: set<Claim>, c: set<Claim>)
    ensures (a + b) + c == a + (b + c)
  {
  }

  lemma SomeClaim(routes: seq<Origin>)
    requires NonEmpty(routes)
    ensures routes == [] <==> Claims(routes) == {}
  {
    if routes != [] {
      assert (routes[0].endpoint, routes[0].prefixes[0]) in Claims(routes);
    }
  }

  /** Without dynamic routes the embedded ones are taken as they are, canonical or not. */
  lemma EmbeddedAlone(embedded: seq<Origin>)
    ensures ComposeWithEmbedded([], [], embedded) == Ok(embedded)
  {
    ComposeClaims([], []);
    SomeClaim(Compose([], []).value);
    assert Claims([]) + Claims([]) == {};
  }

  /** With any, the resolved routes are canonical and denote the union of the three sources. */
  lemma EmbeddedMerged(operator: seq<Origin>, extension: seq<Origin>, embedded: seq<Origin>)
    requires NonEmpty(operator) && NonEmpty(extension) && (operator != [] || extension != [])
    ensures var resolved := ComposeWithEmbedded(operator, extension, embedded);
            && (resolved.Ok? <==> NonEmpty(embedded))
            && (resolved.Ok? ==> resolved.value == Registry(Claims(embedded) + (Claims(operator) + Claims(extension))))
  {
    ComposeClaims(operator, extension);
    var dynamic := Compose(operator, extension).value;
    assert dynamic != [] by {
      SomeClaim(operator);
      SomeClaim(extension);
      SomeClaim(dynamic);
    }
    ComposeClaims(embedded, dynamic);
  }

  // -------------------------------------------------------------------- removal

  function WithoutPrefix(prefixes: seq<string>, prefix: string): seq<string> {
    if prefixes == [] then []
    else if prefixes[0] == prefix then WithoutPrefix(prefixes[1..], prefix)
    else [prefixes[0]] + WithoutPrefix(prefixes[1..], prefix)
  }

  datatype Selector = ByPrefix(prefix: string) | ByOwner(owner: string) | Neither

  predicate Selects(selector: Selector, owner: string, prefix: string) {
    (selector.ByPrefix? && selector.prefix == prefix) || (selector.ByOwner? && selector.owner == owner)
  }

  function Reduced(route: Origin, selector: Selector): seq<string> {
    match selector
    case ByPrefix(prefix) => WithoutPrefix(route.prefixes, prefix)
    case ByOwner(owner) => if route.endpoint == owner then [] else route.prefixes
    case Neither => route.prefixes
  }

  /** Every owner loses what is selected; owners left without prefixes are dropped. */
  function Selected(routes: seq<Origin>, selector: Selector): seq<Origin> {
    if routes == [] || selector.Neither? then routes
    else
      var rest, left := Selected(routes[1..], selector), Reduced(routes[0], selector);
      if left == [] then rest else [Origin(routes[0].endpoint, left)] + rest
  }

  function PrefixCount(routes: seq<Origin>): nat {
    if routes == [] then 0 else |routes[0].prefixes| + PrefixCount(routes[1..])
  }

  lemma {:induction false} WithoutPrefixShorter(prefixes: seq<string>, prefix: string)
    ensures |WithoutPrefix(prefixes, prefix)| <= |prefixes|
  {
    if prefixes != [] {
      WithoutPrefixShorter(prefixes[1..], prefix);
    }
  }

  lemma {:induction false} SelectedIsFewer(routes: seq<Origin>, selector: Selector)
    ensures PrefixCount(Selected(routes, selector)) <= PrefixCount(routes)
  {
    if routes != [] && !selector.Neither? {
      SelectedIsFewer(routes[1..], selector);
      if selector.ByPrefix? {
        WithoutPrefixShorter(routes[0].prefixes, selector.prefix);
      }
    }
  }

  lemma {:induction false} WithoutPrefixKeeps(prefixes: seq<string>, prefix: string)
    ensures forall x :: x in WithoutPrefix(prefixes, prefix) <==> x in prefixes && x != prefix
    ensures Ascending(prefixes) ==> Ascending(WithoutPrefix(prefixes, prefix))
  {
    if prefixes != [] {
      WithoutPrefixKeeps(prefixes[1..], prefix);
      assert prefixes == [prefixes[0]] + prefixes[1..];
      var rest := WithoutPrefix(prefixes[1..], prefix);
      if Ascending(prefixes) {
        forall i | 0 <= i < |rest|
          ensures Before(prefixes[0], rest[i])
        {
          assert rest[i] in rest;
          var j :| 0 <= j < |prefixes[1..]| && prefixes[1..][j] == rest[i];
          assert prefixes[j + 1] == rest[i];
        }
      }
    }
  }

  ghost predicate Claimed(routes: seq<Origin>, owner: string, prefix: string) {
    exists i :: 0 <= i < |routes| && routes[i].endpoint == owner && prefix in routes[i].prefixes
  }

  lemma ReducedKeeps(route: Origin, selector: Selector)
    ensures forall x :: x in Reduced(route, selector) <==> x in route.prefixes && !Selects(selector, route.endpoint, x)
    ensures Ascending(route.prefixes) ==> Ascending(Reduced(route, selector))
  {
    if selector.ByPrefix? {
      WithoutPrefixKeeps(route.prefixes, selector.prefix);
    }
  }

  /** Removal removes exactly the selected claims. */
  lemma {:induction false} RemovalExactly(routes: seq<Origin>, selector: Selector, o: string, x: string)
    ensures Claimed(Selected(routes, selector), o, x) <==> Claimed(routes, o, x) && !Selects(selector, o, x)
  {
    if routes != [] && !selector.Neither? {
      var first, tail := routes[0], routes[1..];
      var left, rest := Reduced(first, selector), Selected(tail, selector);
      RemovalExactly(tail, selector, o, x);
      ReducedKeeps(first, selector);
      ClaimedCons(first, tail, o, x);
      assert routes == [first] + tail;
      ClaimedCons(Origin(first.endpoint, left), rest, o, x);
    }
  }

  ghost predicate Owns(routes: seq<Origin>, owner: string) {
    exists i :: 0 <= i < |routes| && routes[i].endpoint == owner
  }

  /** Removal brings in no owner. */
  lemma {:induction false} RemovalKeepsOwners(routes: seq<Origin>, selector: Selector)
    ensures forall j :: 0 <= j < |Selected(routes, selector)| ==> Owns(routes, Selected(routes, selector)[j].endpoint)
  {
    if routes == [] || selector.Neither? {
      assert forall j :: 0 <= j < |routes| ==> Owns(routes, routes[j].endpoint);
    } else {
      var tail := routes[1..];
      var rest := Selected(tail, selector);
      RemovalKeepsOwners(tail, selector);
      forall j | 0 <= j < |rest|
        ensures Owns(routes, rest[j].endpoint)
      {
        var i :| 0 <= i < |tail| && tail[i].endpoint == rest[j].endpoint;
        assert routes[i + 1] == tail[i];
      }
      assert Owns(routes, routes[0].endpoint);
    }
  }

  /** A canonical registry stays canonical through a removal, without renormalizing. */
  lemma {:induction false} RemovalKeepsCanonical(routes: seq<Origin>, selector: Selector)
    ensures Canonical(routes) ==> Canonical(Selected(routes, selector))
  {
    if Canonical(routes) && routes != [] && !selector.Neither? {
      var first, tail := routes[0], routes[1..];
      var rest := Selected(tail, selector);
      RemovalKeepsCanonical(tail, selector);
      RemovalKeepsOwners(tail, selector);
      ReducedKeeps(first, selector);
      forall j | 0 <= j < |rest|
        ensures Before(first.endpoint, rest[j].endpoint)
      {
        var i :| 0 <= i < |tail| && tail[i].endpoint == rest[j].endpoint;
        assert routes[i + 1] == tail[i];
      }
    }
  }

  lemma ClaimedCons(first: Origin, tail: seq<Origin>, o: string, x: string)
    ensures Claimed([first] + tail, o, x) <==> (first.endpoint == o && x in first.prefixes) || Claimed(tail, o, x)
  {
    var all := [first] + tail;
    if first.endpoint == o && x in first.prefixes {
      assert all[0] == first;
    }
    if Claimed(tail, o, x) {
      var i :| 0 <= i < |tail| && tail[i].endpoint == o && x in tail[i].prefixes;
      assert all[i + 1] == tail[i];
    }
    if Claimed(all, o, x) {
      var i :| 0 <= i < |all| && all[i].endpoint == o && x in all[i].prefixes;
      assert i > 0 ==> tail[i - 1] == all[i];
    }
  }
}
