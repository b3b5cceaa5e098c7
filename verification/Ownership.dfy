/** Which node owns an overlay address: the route-ownership part of configuration validation. */
module Ownership {
  import opened Blocks

  // ------------------------------------------------------------------- prefixes

  function Width(v6: bool): nat {
    if v6 then 128 else 32
  }

  datatype RawNet = Net(v6: bool, address: nat, length: nat)

  predicate WellFormed(net: RawNet) {
    net.length <= Width(net.v6) && net.address < Pow2(Width(net.v6))
  }

  function Size(net: RawNet): (size: nat)
    ensures size > 0
  {
    if net.length <= Width(net.v6) then Pow2(Width(net.v6) - net.length) else 1
  }

  function Network(net: RawNet): nat {
    Base(net.address, Size(net))
  }

  predicate Covers(net: RawNet, v6: bool, address: nat) {
    net.v6 == v6 && address / Size(net) == net.address / Size(net)
  }

  /** The source's test: one prefix contains the other's network address. */
  predicate PrefixesOverlap(left: RawNet, right: RawNet) {
    left.v6 == right.v6 && (Covers(left, right.v6, Network(right)) || Covers(right, left.v6, Network(left)))
  }

  ghost predicate ShareAddress(left: RawNet, right: RawNet) {
    exists v6, address: nat :: Covers(left, v6, address) && Covers(right, v6, address)
  }

  lemma CoversItself(net: RawNet)
    ensures Covers(net, net.v6, net.address) && Covers(net, net.v6, Network(net))
  {
    BaseInBlock(net.address, Size(net));
  }

  /** An address in both puts the shorter prefix around the longer one's network. */
  lemma SharedMeansNested(wide: RawNet, narrow: RawNet, v6: bool, address: nat)
    requires WellFormed(wide) && WellFormed(narrow) && wide.length <= narrow.length
    requires Covers(wide, v6, address) && Covers(narrow, v6, address)
    ensures Covers(wide, v6, Network(narrow))
  {
    var factor := Pow2(narrow.length - wide.length);
    Pow2Add(Width(v6) - narrow.length, narrow.length - wide.length);
    assert Size(wide) == Size(narrow) * factor;
    BaseInBlock(narrow.address, Size(narrow));
    CoarserBlock(address, Network(narrow), Size(narrow), factor);
  }

  /** Two prefixes share an address if and only if one contains the other's network. */
  lemma OverlapExactly(left: RawNet, right: RawNet)
    requires WellFormed(left) && WellFormed(right)
    ensures PrefixesOverlap(left, right) <==> ShareAddress(left, right)
  {
    CoversItself(left);
    CoversItself(right);
    if ShareAddress(left, right) {
      var v6, address: nat :| Covers(left, v6, address) && Covers(right, v6, address);
      if left.length <= right.length {
        SharedMeansNested(left, right, v6, address);
      } else {
        SharedMeansNested(right, left, v6, address);
      }
    }
  }

  // ----------------------------------------------------------------- validation

  datatype Origin = Origin(endpoint: string, prefixes: seq<RawNet>)

  datatype Config = Config(origins: seq<Origin>, advertised: seq<RawNet>, allowDefault: bool)

  predicate Default(net: RawNet) {
    net.length == 0
  }

  predicate Loopback(net: RawNet) {
    if net.v6 then net.address == 1 else net.address / 0x100_0000 == 127
  }

  predicate Multicast(net: RawNet) {
    if net.v6 then net.address / Pow2(120) == 0xff else net.address / 0x1000_0000 == 14
  }

  predicate LinkLocal(net: RawNet) {
    if net.v6 then net.address / Pow2(118) == 0x3fa else net.address / 0x1_0000 == 0xa9fe
  }

  predicate OverlayPrefix(net: RawNet, allowDefault: bool) {
    && (allowDefault || !Default(net))
    && !Loopback(net) && !Multicast(net) && !LinkLocal(net)
    && (net.address != 0 || Default(net))
  }

  type Claim = (string, RawNet)

  /** The claims of the route origins, in order. */
  function Claims(origins: seq<Origin>): seq<Claim> {
    if origins == [] then []
    else
      var n := |origins| - 1;
      Claims(origins[..n]) +
        seq(|origins[n].prefixes|, j requires 0 <= j < |origins[n].prefixes| =>
            (origins[n].endpoint, origins[n].prefixes[j]))
  }

  predicate Clashing(a: Claim, b: Claim) {
    a.0 != b.0 && !Default(a.1) && !Default(b.1) && PrefixesOverlap(a.1, b.1)
  }

  predicate ClashesLocally(local: RawNet, remote: Claim) {
    !Default(local) && !Default(remote.1) && PrefixesOverlap(local, remote.1)
  }

  predicate NoClash(claims: seq<Claim>) {
    forall i, j :: 0 <= i < j < |claims| ==> !Clashing(claims[j], claims[i])
  }

  predicate NoLocalClash(locals: seq<RawNet>, claims: seq<Claim>) {
    forall i, j :: 0 <= i < |locals| && 0 <= j < |claims| ==> !ClashesLocally(locals[i], claims[j])
  }

  predicate OriginsWellFormed(c: Config) {
    && (forall i, j :: 0 <= i < j < |c.origins| ==> c.origins[i].endpoint != c.origins[j].endpoint)
    && (forall i :: 0 <= i < |c.origins| ==> c.origins[i].prefixes != [])
    && (forall i :: 0 <= i < |Claims(c.origins)| ==> OverlayPrefix(Claims(c.origins)[i].1, c.allowDefault))
    && (forall i :: 0 <= i < |c.advertised| ==> OverlayPrefix(c.advertised[i], c.allowDefault))
  }

  predicate Accepted(c: Config) {
    OriginsWellFormed(c) && NoClash(Claims(c.origins)) && NoLocalClash(c.advertised, Claims(c.origins))
  }

  /** One prefix of an origin against everything owned so far. */
  method CheckPrefix(owner: string, prefix: RawNet, owned: seq<Claim>) returns (ok: bool)
    ensures ok == forall i :: 0 <= i < |owned| ==> !Clashing((owner, prefix), owned[i])
  {
    for i := 0 to |owned|
      invariant forall k :: 0 <= k < i ==> !Clashing((owner, prefix), owned[k])
    {
      var (other, existing) := owned[i];
      if other != owner && !Default(prefix) && !Default(existing) && PrefixesOverlap(prefix, existing) {
        assert Clashing((owner, prefix), owned[i]);
        return false;
      }
    }
    ok := true;
  }

  predicate AllOverlay(claims: seq<Claim>, allowDefault: bool) {
    forall i :: 0 <= i < |claims| ==> OverlayPrefix(claims[i].1, allowDefault)
  }

  function Tagged(origin: Origin, n: nat): seq<Claim>
    requires n <= |origin.prefixes|
  {
    seq(n, j requires 0 <= j < n => (origin.endpoint, origin.prefixes[j]))
  }

  /** The prefixes of one origin, each checked against everything owned before it. */
  method CheckOrigin(origin: Origin, owned: seq<Claim>, allowDefault: bool) returns (ok: bool, grown: seq<Claim>)
    requires NoClash(owned) && AllOverlay(owned, allowDefault)
    ensures ok == (&& NoClash(owned + Tagged(origin, |origin.prefixes|))
                   && AllOverlay(owned + Tagged(origin, |origin.prefixes|), allowDefault))
    ensures ok ==> grown == owned + Tagged(origin, |origin.prefixes|)
  {
    grown := owned;
    ghost var all := owned + Tagged(origin, |origin.prefixes|);
    for j := 0 to |origin.prefixes|
      invariant grown == owned + Tagged(origin, j) && grown == all[..|owned| + j]
      invariant NoClash(grown) && AllOverlay(grown, allowDefault)
    {
      var prefix := origin.prefixes[j];
      ghost var next := |owned| + j;
      assert all[next] == (origin.endpoint, prefix);
      if !OverlayPrefix(prefix, allowDefault) {
        return false, grown;
      }
      var free := CheckPrefix(origin.endpoint, prefix, grown);
      if !free {
        var i :| 0 <= i < |grown| && Clashing((origin.endpoint, prefix), grown[i]);
        assert grown[i] == all[i];
        return false, grown;
      }
      grown := grown + [(origin.endpoint, prefix)];
    }
    ok := true;
    assert all[..|all|] == all;
  }

  method ValidateOwnership(c: Config) returns (ok: bool)
    ensures ok == Accepted(c)
  {
    var ids: set<string>, owned: seq<Claim> := {}, [];
    ghost var claims := Claims(c.origins);
    for i := 0 to |c.origins|
      invariant owned == Claims(c.origins[..i]) && owned <= claims
      invariant forall e :: e in ids <==> exists k :: 0 <= k < i && c.origins[k].endpoint == e
      invariant forall k, l :: 0 <= k < l < i ==> c.origins[k].endpoint != c.origins[l].endpoint
      invariant forall k :: 0 <= k < i ==> c.origins[k].prefixes != []
      invariant NoClash(owned) && AllOverlay(owned, c.allowDefault)
    {
      var origin := c.origins[i];
      ClaimsGrow(c.origins, i);
      if origin.endpoint in ids || origin.prefixes == [] {
        return false;
      }
      ids := ids + {origin.endpoint};
      var fine, grown := CheckOrigin(origin, owned, c.allowDefault);
      if !fine {
        PrefixFails(owned + Tagged(origin, |origin.prefixes|), claims, c.allowDefault);
        return false;
      }
      owned := grown;
    }
    assert c.origins[..|c.origins|] == c.origins;
    ok := CheckAdvertised(c.advertised, owned, c.allowDefault);
  }

  method CheckAdvertised(locals: seq<RawNet>, owned: seq<Claim>, allowDefault: bool) returns (ok: bool)
    ensures ok == (&& NoLocalClash(locals, owned)
                   && forall i :: 0 <= i < |locals| ==> OverlayPrefix(locals[i], allowDefault))
  {
    for i := 0 to |locals|
      invariant NoLocalClash(locals[..i], owned)
      invariant forall k :: 0 <= k < i ==> OverlayPrefix(locals[k], allowDefault)
    {
      if !OverlayPrefix(locals[i], allowDefault) {
        return false;
      }
      for j := 0 to |owned|
        invariant forall l :: 0 <= l < j ==> !ClashesLocally(locals[i], owned[l])
      {
        if !Default(locals[i]) && !Default(owned[j].1) && PrefixesOverlap(locals[i], owned[j].1) {
          assert ClashesLocally(locals[i], owned[j]);
          return false;
        }
      }
    }
    ok := true;
  }

  lemma {:induction false} ClaimsMonotone(origins: seq<Origin>, i: nat)
    requires i <= |origins|
    ensures Claims(origins[..i]) <= Claims(origins)
    decreases |origins|
  {
    if i == |origins| {
      assert origins[..i] == origins;
    } else {
      var n := |origins| - 1;
      assert origins[..n][..i] == origins[..i];
      ClaimsMonotone(origins[..n], i);
    }
  }

  lemma ClaimsGrow(origins: seq<Origin>, i: nat)
    requires i < |origins|
    ensures Claims(origins[..i + 1]) == Claims(origins[..i]) + Tagged(origins[i], |origins[i].prefixes|)
    ensures Claims(origins[..i + 1]) <= Claims(origins)
  {
    assert origins[..i + 1][..i] == origins[..i];
    ClaimsMonotone(origins, i + 1);
  }

  lemma PrefixFails(some: seq<Claim>, all: seq<Claim>, allowDefault: bool)
    requires some <= all && !(NoClash(some) && AllOverlay(some, allowDefault))
    ensures !(NoClash(all) && AllOverlay(all, allowDefault))
  {
    assert forall i :: 0 <= i < |some| ==> some[i] == all[i];
  }

  // ------------------------------------------------------------------ ownership

  /** A non-default remote prefix of `owner` covers the address. */
  ghost predicate RemoteOwner(c: Config, owner: string, v6: bool, address: nat) {
    exists i :: 0 <= i < |Claims(c.origins)| && Claims(c.origins)[i].0 == owner
                && !Default(Claims(c.origins)[i].1) && Covers(Claims(c.origins)[i].1, v6, address)
  }

  ghost predicate LocallyCovered(c: Config, v6: bool, address: nat) {
    exists i :: 0 <= i < |c.advertised| && !Default(c.advertised[i]) && Covers(c.advertised[i], v6, address)
  }

  /** Every address has at most one remote owner, and none if it is local. */
  ghost predicate Unambiguous(c: Config) {
    && (forall owner, other, v6, address: nat ::
          RemoteOwner(c, owner, v6, address) && RemoteOwner(c, other, v6, address) ==> owner == other)
    && (forall owner, v6, address: nat :: RemoteOwner(c, owner, v6, address) ==> !LocallyCovered(c, v6, address))
  }

  ghost predicate NetsWellFormed(c: Config) {
    && (forall i :: 0 <= i < |Claims(c.origins)| ==> WellFormed(Claims(c.origins)[i].1))
    && (forall i :: 0 <= i < |c.advertised| ==> WellFormed(c.advertised[i]))
  }

  lemma ClashIsShared(a: Claim, b: Claim)
    requires WellFormed(a.1) && WellFormed(b.1)
    ensures Clashing(a, b) <==> a.0 != b.0 && !Default(a.1) && !Default(b.1) && ShareAddress(a.1, b.1)
    ensures Clashing(a, b) <==> Clashing(b, a)
  {
    OverlapExactly(a.1, b.1);
    OverlapExactly(b.1, a.1);
  }

  lemma AcceptedUnambiguous(c: Config)
    requires NetsWellFormed(c) && NoClash(Claims(c.origins)) && NoLocalClash(c.advertised, Claims(c.origins))
    ensures Unambiguous(c)
  {
    var claims := Claims(c.origins);
    forall owner, other, v6, address: nat | RemoteOwner(c, owner, v6, address) && RemoteOwner(c, other, v6, address)
      ensures owner == other
    {
      var i :| 0 <= i < |claims| && claims[i].0 == owner && !Default(claims[i].1) && Covers(claims[i].1, v6, address);
      var j :| 0 <= j < |claims| && claims[j].0 == other && !Default(claims[j].1) && Covers(claims[j].1, v6, address);
      ClashIsShared(claims[i], claims[j]);
    }
    forall owner, v6, address: nat | RemoteOwner(c, owner, v6, address)
      ensures !LocallyCovered(c, v6, address)
    {
      var i :| 0 <= i < |claims| && claims[i].0 == owner && !Default(claims[i].1) && Covers(claims[i].1, v6, address);
      forall j | 0 <= j < |c.advertised| && !Default(c.advertised[j])
        ensures !Covers(c.advertised[j], v6, address)
      {
        OverlapExactly(c.advertised[j], claims[i].1);
      }
    }
  }

  lemma UnambiguousAccepted(c: Config)
    requires NetsWellFormed(c) && Unambiguous(c)
    ensures NoClash(Claims(c.origins)) && NoLocalClash(c.advertised, Claims(c.origins))
  {
    var claims := Claims(c.origins);
    forall i, j | 0 <= i < j < |claims|
      ensures !Clashing(claims[j], claims[i])
    {
      ClashIsShared(claims[j], claims[i]);
      if Clashing(claims[j], claims[i]) {
        var v6, address: nat :| Covers(claims[j].1, v6, address) && Covers(claims[i].1, v6, address);
        assert RemoteOwner(c, claims[j].0, v6, address) && RemoteOwner(c, claims[i].0, v6, address);
      }
    }
    forall i, j | 0 <= i < |c.advertised| && 0 <= j < |claims|
      ensures !ClashesLocally(c.advertised[i], claims[j])
    {
      OverlapExactly(c.advertised[i], claims[j].1);
      if ClashesLocally(c.advertised[i], claims[j]) {
        var v6, address: nat :| Covers(c.advertised[i], v6, address) && Covers(claims[j].1, v6, address);
        assert RemoteOwner(c, claims[j].0, v6, address) && LocallyCovered(c, v6, address);
      }
    }
  }

  /**
   A configuration with well-formed origins is accepted if and only if ownership is
   unambiguous: default prefixes aside, no address belongs to two remote owners or to
   a remote owner and the local node.
   */
  lemma OwnershipUnambiguous(c: Config)
    requires NetsWellFormed(c)
    ensures Accepted(c) <==> OriginsWellFormed(c) && Unambiguous(c)
  {
    if Accepted(c) {
      AcceptedUnambiguous(c);
    }
    if Unambiguous(c) {
      UnambiguousAccepted(c);
    }
  }
}
