/**
 The authority's membership records: the peers of its sealed configuration and
 the invite records of its product state, with the transactions that create,
 confirm, expire and revoke invites.

 The transactions are given as functions on a `Roster`. The class `Authority`
 performs them step by step on its fields, and the lemmas after it say what every
 run of transactions keeps.
 */
module Membership {
  import opened Outcomes

  type EndpointId = string
  type InviteId = string

  datatype Peer = Peer(name: string, endpoint: EndpointId)

  datatype Invite = Invite(
    id: InviteId,
    created: nat,
    expires: nat,
    revoked: bool,
    member: EndpointId,
    pending: bool,     // a password enrollment that its member has not confirmed
    provisioned: bool  // a password enrollment that introduced the peer entry
  )

  datatype Roster = Roster(peers: seq<Peer>, invites: seq<Invite>)

  // ---------------------------------------------------------------- lookups

  predicate HasPeer(peers: seq<Peer>, endpoint: EndpointId) {
    exists i :: 0 <= i < |peers| && peers[i].endpoint == endpoint
  }

  ghost function PeerCount(peers: seq<Peer>, endpoint: EndpointId): nat {
    if peers == [] then 0
    else PeerCount(peers[1..], endpoint) + (if peers[0].endpoint == endpoint then 1 else 0)
  }

  predicate DistinctPeers(peers: seq<Peer>) {
    forall i, j :: 0 <= i < j < |peers| ==>
      peers[i].endpoint != peers[j].endpoint && peers[i].name != peers[j].name
  }

  predicate HasInvite(invites: seq<Invite>, id: InviteId) {
    exists i :: 0 <= i < |invites| && invites[i].id == id
  }

  predicate DistinctIds(invites: seq<Invite>) {
    forall i, j :: 0 <= i < j < |invites| ==> invites[i].id != invites[j].id
  }

  /** Position of the first invite with the given id, or the length. */
  function Find(invites: seq<Invite>, id: InviteId): (k: nat)
    ensures k <= |invites|
    ensures k < |invites| ==> invites[k].id == id
    ensures forall j :: 0 <= j < k ==> invites[j].id != id
  {
    if invites == [] || invites[0].id == id then 0 else 1 + Find(invites[1..], id)
  }

  /** An invite that keeps its endpoint on the removal list. */
  predicate OnRemovalList(invite: Invite) {
    invite.pending && invite.provisioned && invite.revoked
  }

  predicate Provisional(invites: seq<Invite>, endpoint: EndpointId) {
    exists i :: 0 <= i < |invites| && OnRemovalList(invites[i]) && invites[i].member == endpoint
  }

  predicate Active(invites: seq<Invite>, endpoint: EndpointId) {
    exists i :: 0 <= i < |invites| && !invites[i].revoked && invites[i].member == endpoint
  }

  predicate Removable(invites: seq<Invite>, endpoint: EndpointId) {
    Provisional(invites, endpoint) && !Active(invites, endpoint)
  }

  // ----------------------------------------------------------- transactions

  function PeerName(member: EndpointId): string {
    "invite-" + if |member| < 12 then member else member[..12]
  }

  /**
   A new invite for `member`. `checks` stands for the authority key, the node
   identity and every configuration check that does not compare peers.
   */
  function Create(r: Roster, id: InviteId, member: EndpointId, now: nat, lifetime: nat,
                  password: bool, checks: bool): Result<Roster>
  {
    if !checks || !DistinctPeers(r.peers) || lifetime == 0 || now + lifetime > U64_MAX then Err
    else
      var provision := !HasPeer(r.peers, member);
      var peers := if provision then r.peers + [Peer(PeerName(member), member)] else r.peers;
      if !DistinctPeers(peers) then Err
      else Ok(Roster(peers, r.invites + [Invite(id, now, now + lifetime, false, member, password,
                                                password && provision)]))
  }

  function Confirm(r: Roster, id: InviteId, member: EndpointId, now: nat): Result<Roster> {
    var k := Find(r.invites, id);
    if k == |r.invites| || r.invites[k].member != member || r.invites[k].revoked then Err
    else if !r.invites[k].pending then Ok(r)
    else if r.invites[k].expires < now then Err
    else Ok(r.(invites := r.invites[k := r.invites[k].(pending := false)]))
  }

  predicate Overdue(invite: Invite, now: nat) {
    invite.pending && !invite.revoked && invite.expires < now
  }

  function Mark(invites: seq<Invite>, now: nat): (marked: seq<Invite>)
    ensures |marked| == |invites|
  {
    seq(|invites|, i requires 0 <= i < |invites| =>
      if Overdue(invites[i], now) then invites[i].(revoked := true) else invites[i])
  }

  predicate AnyOverdue(invites: seq<Invite>, now: nat) {
    exists i :: 0 <= i < |invites| && Overdue(invites[i], now)
  }

  /** The peers that survive removal, in their order. */
  function Admitted(peers: seq<Peer>, invites: seq<Invite>): seq<Peer> {
    if peers == [] then []
    else
      var rest := Admitted(peers[1..], invites);
      if Removable(invites, peers[0].endpoint) then rest else [peers[0]] + rest
  }

  function Expire(r: Roster, now: nat): Roster {
    if !AnyOverdue(r.invites, now) then r
    else
      var marked := Mark(r.invites, now);
      Roster(Admitted(r.peers, marked), marked)
  }

  function Revoke(r: Roster, id: InviteId): Result<Roster> {
    var k := Find(r.invites, id);
    if k == |r.invites| then Err
    else
      var invites := r.invites[k := r.invites[k].(revoked := true)];
      Ok(Roster(Admitted(r.peers, invites), invites))
  }

  /** The operator's revocation touches the product state alone. */
  function RevokeInvite(r: Roster, id: InviteId): Result<Roster> {
    var k := Find(r.invites, id);
    if k == |r.invites| then Err
    else Ok(r.(invites := r.invites[k := r.invites[k].(revoked := true)]))
  }

  // -------------------------------------------------------------- the class

  /**
   The authority's two files in memory. `saves` says whether the save
   transaction succeeds; a failed one leaves the old records.
   */
  class Authority {
    var peers: seq<Peer>
    var invites: seq<Invite>

    ghost function View(): Roster
      reads this
    {
      Roster(peers, invites)
    }

    constructor (peers: seq<Peer>, invites: seq<Invite>)
      ensures View() == Roster(peers, invites)
    {
      this.peers, this.invites := peers, invites;
    }

    method FindInvite(id: InviteId) returns (k: nat)
      ensures k == Find(invites, id)
    {
      k := 0;
      while k < |invites| && invites[k].id != id
        invariant 0 <= k <= |invites|
        invariant Find(invites, id) == k + Find(invites[k..], id)
      {
        assert invites[k..][1..] == invites[k + 1..];
        k := k + 1;
      }
    }

    method CreateInvite(id: InviteId, member: EndpointId, now: nat, lifetime: nat,
                        password: bool, checks: bool, saves: bool) returns (created: bool)
      modifies this
      ensures var result := Create(old(View()), id, member, now, lifetime, password, checks);
              && created == (saves && result.Ok?)
              && View() == if created then result.value else old(View())
    {
      if !checks || !DistinctPeers(peers) || lifetime == 0 || now + lifetime > U64_MAX {
        return false;
      }
      var provision := !HasPeer(peers, member);
      var next := peers;
      if provision {
        next := next + [Peer(PeerName(member), member)];
      }
      if !DistinctPeers(next) || !saves {
        return false;
      }
      peers := next;
      invites := invites + [Invite(id, now, now + lifetime, false, member, password,
                                   password && provision)];
      created := true;
    }

    method ConfirmPasswordEnrollment(id: InviteId, member: EndpointId, now: nat, saves: bool)
      returns (confirmed: bool)
      modifies this
      ensures var result := Confirm(old(View()), id, member, now);
              && confirmed == (result.Ok? && (saves || result.value == old(View())))
              && View() == if confirmed then result.value else old(View())
    {
      var k := FindInvite(id);
      if k == |invites| || invites[k].member != member || invites[k].revoked {
        return false;
      }
      if !invites[k].pending {
        return true;
      }
      if invites[k].expires < now || !saves {
        assert invites[k].pending;
        assert invites[k := invites[k].(pending := false)][k] != invites[k];
        return false;
      }
      invites := invites[k := invites[k].(pending := false)];
      confirmed := true;
    }

    method ExpirePendingEnrollments(now: nat, saves: bool) returns (outcome: Result<bool>)
      modifies this
      ensures var due := AnyOverdue(old(invites), now);
              && outcome == (if due && !saves then Err else Ok(due))
              && View() == if outcome.Err? then old(View()) else Expire(old(View()), now)
    {
      var marked, changed := invites, false;
      for i := 0 to |marked|
        invariant |marked| == |invites|
        invariant marked[..i] == Mark(invites, now)[..i] && marked[i..] == invites[i..]
        invariant changed == exists j :: 0 <= j < i && Overdue(invites[j], now)
      {
        assert marked[i] == marked[i..][0] == invites[i];
        if marked[i].pending && !marked[i].revoked && marked[i].expires < now {
          marked := marked[i := marked[i].(revoked := true)];
          changed := true;
        }
      }
      assert marked == Mark(invites, now);
      if !changed {
        return Ok(false);
      }
      if !saves {
        return Err;
      }
      invites := marked;
      RemoveUnadmittedPeers();
      outcome := Ok(true);
    }

    method RevokePasswordEnrollment(id: InviteId, saves: bool) returns (revoked: bool)
      modifies this
      ensures var result := Revoke(old(View()), id);
              && revoked == (saves && result.Ok?)
              && View() == if revoked then result.value else old(View())
    {
      var k := FindInvite(id);
      if k == |invites| || !saves {
        return false;
      }
      invites := invites[k := invites[k].(revoked := true)];
      RemoveUnadmittedPeers();
      revoked := true;
    }

    /** Two collecting passes over the invites, then one filtering pass over the peers. */
    method RemoveUnadmittedPeers()
      modifies this`peers
      ensures peers == Admitted(old(peers), invites)
    {
      var provisional: set<EndpointId>, active: set<EndpointId> := {}, {};
      for i := 0 to |invites|
        invariant forall e :: e in provisional <==>
          exists j :: 0 <= j < i && OnRemovalList(invites[j]) && invites[j].member == e
      {
        if OnRemovalList(invites[i]) {
          provisional := provisional + {invites[i].member};
        }
      }
      if provisional == {} {
        assert forall e :: Provisional(invites, e) ==> e in provisional;
        NothingRemovable(peers, invites);
        return;
      }
      for i := 0 to |invites|
        invariant forall e :: e in active <==>
          exists j :: 0 <= j < i && !invites[j].revoked && invites[j].member == e
      {
        if !invites[i].revoked {
          active := active + {invites[i].member};
        }
      }
      var kept: seq<Peer>, k := [], 0;
      while k < |peers|
        invariant k <= |peers|
        invariant Admitted(peers, invites) == kept + Admitted(peers[k..], invites)
      {
        assert peers[k..][1..] == peers[k + 1..];
        if peers[k].endpoint !in provisional || peers[k].endpoint in active {
          assert !Removable(invites, peers[k].endpoint);
          kept := kept + [peers[k]];
        }
        k := k + 1;
      }
      peers := kept;
    }

    /** The operator's revocation; it reports whether the invite was still standing. */
    method OperatorRevoke(id: InviteId, saves: bool) returns (changed: Result<bool>)
      modifies this`invites
      ensures var result := RevokeInvite(old(View()), id);
              && (changed.Ok? <==> saves && result.Ok?)
              && (changed.Ok? ==> (changed.value <==> result.value != old(View())))
              && View() == if changed.Ok? then result.value else old(View())
    {
      var k := FindInvite(id);
      if k == |invites| || !saves {
        return Err;
      }
      changed := Ok(!invites[k].revoked);
      assert !invites[k].revoked ==> invites[k := invites[k].(revoked := true)][k] != invites[k];
      invites := invites[k := invites[k].(revoked := true)];
    }
  }

  lemma {:induction false} NothingRemovable(peers: seq<Peer>, invites: seq<Invite>)
    requires forall e :: !Provisional(invites, e)
    ensures Admitted(peers, invites) == peers
  {
    if peers != [] {
      NothingRemovable(peers[1..], invites);
    }
  }

  // ---------------------------------------------------------- one transaction

  /** What every transaction keeps of the authority's records. */
  ghost predicate Admissible(r: Roster) {
    && DistinctPeers(r.peers)
    && DistinctIds(r.invites)
    && (forall i :: 0 <= i < |r.invites| && !r.invites[i].revoked ==>
          HasPeer(r.peers, r.invites[i].member))
  }

  /**
   The exact removal condition: a peer goes if and only if some revoked, still
   pending, provisioning invite names its endpoint and no unrevoked invite does.
   */
  lemma {:induction false} AdmittedExactly(peers: seq<Peer>, invites: seq<Invite>)
    ensures forall p :: p in Admitted(peers, invites) <==>
              p in peers && !(Provisional(invites, p.endpoint) && !Active(invites, p.endpoint))
    ensures DistinctPeers(peers) ==> DistinctPeers(Admitted(peers, invites))
  {
    if peers != [] {
      AdmittedExactly(peers[1..], invites);
      assert peers == [peers[0]] + peers[1..];
      if DistinctPeers(peers) {
        assert forall p :: p in peers[1..] ==> p.endpoint != peers[0].endpoint && p.name != peers[0].name;
        assert forall p :: p in Admitted(peers[1..], invites) ==> p in peers[1..];
      }
    }
  }

  lemma KeepsPeers(peers: seq<Peer>, invites: seq<Invite>, endpoint: EndpointId)
    requires HasPeer(peers, endpoint) && !Removable(invites, endpoint)
    ensures HasPeer(Admitted(peers, invites), endpoint)
  {
    AdmittedExactly(peers, invites);
    var i :| 0 <= i < |peers| && peers[i].endpoint == endpoint;
    assert peers[i] in Admitted(peers, invites);
  }

  /** A peer that the exact condition selects is gone. */
  lemma DropsPeers(peers: seq<Peer>, invites: seq<Invite>, endpoint: EndpointId)
    requires Removable(invites, endpoint)
    ensures !HasPeer(Admitted(peers, invites), endpoint)
  {
    AdmittedExactly(peers, invites);
    if HasPeer(Admitted(peers, invites), endpoint) {
      var i :| 0 <= i < |Admitted(peers, invites)| && Admitted(peers, invites)[i].endpoint == endpoint;
      assert Admitted(peers, invites)[i] in Admitted(peers, invites);
    }
  }

  datatype Transaction =
    | Creation(id: InviteId, member: EndpointId, now: nat, lifetime: nat, password: bool, checks: bool)
    | Confirmation(id: InviteId, member: EndpointId, now: nat)
    | Sweep(now: nat)
    | Rollback(id: InviteId)
    | OperatorRevocation(id: InviteId)

  function OrElse(result: Result<Roster>, r: Roster): Roster {
    if result.Ok? then result.value else r
  }

  /** A failed transaction leaves the records as they were. */
  function Commit(r: Roster, t: Transaction): Roster {
    match t
    case Creation(id, member, now, lifetime, password, checks) =>
      OrElse(Create(r, id, member, now, lifetime, password, checks), r)
    case Confirmation(id, member, now) => OrElse(Confirm(r, id, member, now), r)
    case Sweep(now) => Expire(r, now)
    case Rollback(id) => OrElse(Revoke(r, id), r)
    case OperatorRevocation(id) => OrElse(RevokeInvite(r, id), r)
  }

  /** New invites carry random ids, which are taken to be unused. */
  predicate FreshId(r: Roster, t: Transaction) {
    t.Creation? ==> !HasInvite(r.invites, t.id)
  }

  /** How one transaction may change one record: never deleted, and only these flags move. */
  ghost predicate Evolves(before: Invite, after: Invite, t: Transaction) {
    && after == before.(pending := after.pending, revoked := after.revoked)
    && (after.pending ==> before.pending)
    && (before.revoked ==> after.revoked)
    && (before.pending && !after.pending ==> t.Confirmation? && t.id == before.id && !before.revoked && !after.revoked)
    && (!before.revoked && after.revoked ==>
          || (t.Sweep? && before.pending && after.pending && before.expires < t.now)
          || ((t.Rollback? || t.OperatorRevocation?) && t.id == before.id))
  }

  lemma CommitEvolves(r: Roster, t: Transaction)
    ensures |r.invites| <= |Commit(r, t).invites|
    ensures forall i :: 0 <= i < |r.invites| ==> Evolves(r.invites[i], Commit(r, t).invites[i], t)
  {
  }

  lemma FindUnique(invites: seq<Invite>, i: nat)
    requires DistinctIds(invites) && i < |invites|
    ensures Find(invites, invites[i].id) == i
  {
  }

  lemma RemovalAdmissible(r: Roster, t: Transaction)
    requires Admissible(r) && (t.Sweep? || t.Rollback?)
    ensures Admissible(Commit(r, t))
  {
    var next := Commit(r, t);
    CommitEvolves(r, t);
    AdmittedExactly(r.peers, next.invites);
    forall i | 0 <= i < |next.invites| && !next.invites[i].revoked
      ensures HasPeer(next.peers, next.invites[i].member)
    {
      assert Evolves(r.invites[i], next.invites[i], t);
      if next.peers != r.peers {
        assert Active(next.invites, next.invites[i].member);
        KeepsPeers(r.peers, next.invites, next.invites[i].member);
      }
    }
  }

  lemma CreationAdmissible(r: Roster, t: Transaction)
    requires Admissible(r) && FreshId(r, t) && t.Creation?
    ensures Admissible(Commit(r, t))
  {
    var next := Commit(r, t);
    if next != r {
      if !HasPeer(r.peers, t.member) {
        assert next.peers[|r.peers|].endpoint == t.member;
      }
      forall e | HasPeer(r.peers, e)
        ensures HasPeer(next.peers, e)
      {
        var i :| 0 <= i < |r.peers| && r.peers[i].endpoint == e;
        assert next.peers[i].endpoint == e;
      }
    }
  }

  lemma CommitAdmissible(r: Roster, t: Transaction)
    requires Admissible(r) && FreshId(r, t)
    ensures Admissible(Commit(r, t))
  {
    if t.Sweep? || t.Rollback? {
      RemovalAdmissible(r, t);
    } else if t.Creation? {
      CreationAdmissible(r, t);
    }
  }

  // -------------------------------------------------------------------- runs

  function Replay(r: Roster, log: seq<Transaction>): Roster {
    if log == [] then r
    else Commit(Replay(r, log[..|log| - 1]), log[|log| - 1])
  }

  /** Every creation in the log drew an unused id. */
  ghost predicate FreshRun(r: Roster, log: seq<Transaction>) {
    forall n :: 0 <= n < |log| ==> FreshId(Replay(r, log[..n]), log[n])
  }

  lemma FreshPrefix(r: Roster, log: seq<Transaction>, n: nat)
    requires FreshRun(r, log) && n <= |log|
    ensures FreshRun(r, log[..n])
  {
    forall m | 0 <= m < n
      ensures FreshId(Replay(r, log[..n][..m]), log[..n][m])
    {
      assert log[..n][..m] == log[..m];
    }
  }

  /** Every unrevoked invite's member is a peer, in every run from admissible records. */
  lemma {:induction false} AdmissibleForever(r: Roster, log: seq<Transaction>)
    requires Admissible(r) && FreshRun(r, log)
    ensures Admissible(Replay(r, log))
  {
    if log != [] {
      var n := |log| - 1;
      FreshPrefix(r, log, n);
      AdmissibleForever(r, log[..n]);
      CommitAdmissible(Replay(r, log[..n]), log[n]);
    }
  }

  /** The same record later: its flags only move forward. */
  ghost predicate Later(a: Invite, z: Invite) {
    && z == a.(pending := z.pending, revoked := z.revoked)
    && (z.pending ==> a.pending)
    && (a.revoked ==> z.revoked)
  }

  lemma ReplayNext(r: Roster, log: seq<Transaction>, n: nat)
    requires n < |log|
    ensures Replay(r, log[..n + 1]) == Commit(Replay(r, log[..n]), log[n])
  {
    assert log[..n + 1][..n] == log[..n];
  }

  ghost predicate LaterAt(first: Invite, r: Roster, i: nat) {
    i < |r.invites| && Later(first, r.invites[i])
  }

  lemma OneLater(first: Invite, r: Roster, t: Transaction, i: nat)
    requires LaterAt(first, r, i)
    ensures LaterAt(first, Commit(r, t), i)
  {
    CommitEvolves(r, t);
    assert Evolves(r.invites[i], Commit(r, t).invites[i], t);
  }

  lemma ReplayLater(r: Roster, log: seq<Transaction>, n: nat, first: Invite, i: nat)
    requires n < |log| && LaterAt(first, Replay(r, log[..n]), i)
    ensures LaterAt(first, Replay(r, log[..n + 1]), i)
  {
    OneLater(first, Replay(r, log[..n]), log[n], i);
    ReplayNext(r, log, n);
  }

  lemma {:induction false} LaterThrough(r: Roster, log: seq<Transaction>, n: nat, m: nat, first: Invite, i: nat)
    requires n <= m <= |log| && LaterAt(first, Replay(r, log[..n]), i)
    ensures LaterAt(first, Replay(r, log[..m]), i)
    decreases m - n
  {
    if n < m {
      ReplayLater(r, log, n, first, i);
      LaterThrough(r, log, n + 1, m, first, i);
    }
  }

  /** From one point of a run to a later one, records stay and their flags only move forward. */
  lemma RecordsSurvive(r: Roster, log: seq<Transaction>, n: nat, m: nat, i: nat)
    requires n <= m <= |log| && i < |Replay(r, log[..n]).invites|
    ensures LaterAt(Replay(r, log[..n]).invites[i], Replay(r, log[..m]), i)
  {
    var before := Replay(r, log[..n]);
    assert LaterAt(before.invites[i], before, i);
    LaterThrough(r, log, n, m, before.invites[i], i);
  }

  ghost predicate EverProvisioned(r: Roster, endpoint: EndpointId) {
    exists i :: 0 <= i < |r.invites| && r.invites[i].provisioned && r.invites[i].member == endpoint
  }

  lemma ProvisioningIsKept(r: Roster, t: Transaction, endpoint: EndpointId)
    requires EverProvisioned(r, endpoint)
    ensures EverProvisioned(Commit(r, t), endpoint)
  {
    var i :| 0 <= i < |r.invites| && r.invites[i].provisioned && r.invites[i].member == endpoint;
    OneLater(r.invites[i], r, t, i);
  }

  lemma UnprovisionedPeerStays(r: Roster, t: Transaction, endpoint: EndpointId)
    requires HasPeer(r.peers, endpoint) && !EverProvisioned(Commit(r, t), endpoint)
    ensures HasPeer(Commit(r, t).peers, endpoint)
  {
    var after := Commit(r, t);
    assert !Provisional(after.invites, endpoint);
    KeepsPeers(r.peers, after.invites, endpoint);
    var j :| 0 <= j < |r.peers| && r.peers[j].endpoint == endpoint;
    if t.Creation? {
      assert after.peers[j] == r.peers[j];
    }
  }

  /** A peer that no password invite introduced is never removed by any run. */
  lemma {:induction false} UnprovisionedPeersStay(r: Roster, log: seq<Transaction>, endpoint: EndpointId)
    requires HasPeer(r.peers, endpoint) && !EverProvisioned(Replay(r, log), endpoint)
    ensures HasPeer(Replay(r, log).peers, endpoint)
  {
    if log != [] {
      var n := |log| - 1;
      var before := Replay(r, log[..n]);
      if EverProvisioned(before, endpoint) {
        ProvisioningIsKept(before, log[n], endpoint);
      }
      UnprovisionedPeersStay(r, log[..n], endpoint);
      UnprovisionedPeerStays(before, log[n], endpoint);
    }
  }

  /** Transaction `n` of the run turned the confirmation of record `i` from pending to done. */
  ghost predicate ConfirmedAt(r: Roster, log: seq<Transaction>, n: nat, i: nat)
    requires n < |log|
  {
    var before, after := Replay(r, log[..n]), Replay(r, log[..n + 1]);
    i < |before.invites| && i < |after.invites| && before.invites[i].pending && !after.invites[i].pending
  }

  /** Transaction `n` of the run is a sweep that revoked record `i`. */
  ghost predicate ExpiredAt(r: Roster, log: seq<Transaction>, n: nat, i: nat)
    requires n < |log|
  {
    var before, after := Replay(r, log[..n]), Replay(r, log[..n + 1]);
    && log[n].Sweep? && i < |before.invites| && i < |after.invites|
    && !before.invites[i].revoked && after.invites[i].revoked
  }

  lemma RunEvolves(r: Roster, log: seq<Transaction>, n: nat, i: nat)
    requires n < |log| && i < |Replay(r, log[..n]).invites|
    ensures i < |Replay(r, log[..n + 1]).invites|
    ensures Evolves(Replay(r, log[..n]).invites[i], Replay(r, log[..n + 1]).invites[i], log[n])
  {
    ReplayNext(r, log, n);
    CommitEvolves(Replay(r, log[..n]), log[n]);
  }

  /** Confirmation and expiry of one invite exclude each other, in either order. */
  lemma ConfirmationExcludesExpiry(r: Roster, log: seq<Transaction>, n: nat, m: nat, i: nat)
    requires n < |log| && m < |log|
    ensures !(ConfirmedAt(r, log, n, i) && ExpiredAt(r, log, m, i))
  {
    if ConfirmedAt(r, log, n, i) && ExpiredAt(r, log, m, i) {
      RunEvolves(r, log, n, i);
      RunEvolves(r, log, m, i);
      if n < m {
        RecordsSurvive(r, log, n + 1, m, i);
      } else if m < n {
        RecordsSurvive(r, log, m + 1, n, i);
      }
      assert false;
    }
  }

  /**
   After a sweep that changed something, an endpoint that a password invite
   introduced, whose invites are all revoked and whose introducing invite was
   never confirmed, is not a peer.
   */
  lemma SweptEndpointsAreGone(r: Roster, now: nat, endpoint: EndpointId)
    requires AnyOverdue(r.invites, now)
    requires var after := Expire(r, now);
             && !Active(after.invites, endpoint)
             && exists i :: 0 <= i < |after.invites| && after.invites[i].member == endpoint
                            && after.invites[i].provisioned && after.invites[i].pending
    ensures !HasPeer(Expire(r, now).peers, endpoint)
  {
    var after := Expire(r, now);
    var i :| 0 <= i < |after.invites| && after.invites[i].member == endpoint
             && after.invites[i].provisioned && after.invites[i].pending;
    assert after.invites[i].revoked;
    assert OnRemovalList(after.invites[i]);
    DropsPeers(r.peers, after.invites, endpoint);
  }

  /** An invite that stands no more once the clock shows `now`. */
  predicate Spent(invite: Invite, now: nat) {
    invite.revoked || Overdue(invite, now)
  }

  /** What a sweep at `now` holds against an endpoint, by the records before it. */
  predicate Sweeps(invites: seq<Invite>, now: nat, endpoint: EndpointId) {
    && (exists i :: 0 <= i < |invites| && invites[i].member == endpoint &&
                    invites[i].pending && invites[i].provisioned && Spent(invites[i], now))
    && (forall i :: 0 <= i < |invites| && invites[i].member == endpoint ==> Spent(invites[i], now))
  }

  lemma SweepsExactly(invites: seq<Invite>, now: nat, endpoint: EndpointId)
    ensures Removable(Mark(invites, now), endpoint) <==> Sweeps(invites, now, endpoint)
  {
    var marked := Mark(invites, now);
    assert forall i :: 0 <= i < |invites| ==>
      marked[i] == invites[i].(revoked := Spent(invites[i], now));
    if Removable(marked, endpoint) {
      var i :| 0 <= i < |marked| && OnRemovalList(marked[i]) && marked[i].member == endpoint;
      assert invites[i].member == endpoint && Spent(invites[i], now);
      forall j | 0 <= j < |invites| && invites[j].member == endpoint ensures Spent(invites[j], now) {
        assert marked[j].revoked;
      }
    }
    if Sweeps(invites, now, endpoint) {
      var i :| 0 <= i < |invites| && invites[i].member == endpoint &&
               invites[i].pending && invites[i].provisioned && Spent(invites[i], now);
      assert OnRemovalList(marked[i]);
    }
  }

  /**
   Exactly whom a sweep removes. When some enrollment is overdue: the peers that a pending
   password enrollment introduced that is revoked or overdue, if all their other invites are
   revoked or overdue too, also a peer that was added again by hand since. Otherwise nobody.
   */
  lemma SweepRemovesExactly(r: Roster, now: nat, endpoint: EndpointId)
    ensures HasPeer(Expire(r, now).peers, endpoint) <==>
              HasPeer(r.peers, endpoint) && !(AnyOverdue(r.invites, now) && Sweeps(r.invites, now, endpoint))
  {
    if AnyOverdue(r.invites, now) {
      var invites := Mark(r.invites, now);
      SweepsExactly(r.invites, now, endpoint);
      AdmittedExactly(r.peers, invites);
      if Removable(invites, endpoint) {
        DropsPeers(r.peers, invites, endpoint);
      } else if HasPeer(r.peers, endpoint) {
        KeepsPeers(r.peers, invites, endpoint);
      } else {
        var kept := Admitted(r.peers, invites);
        forall i | 0 <= i < |kept| ensures kept[i].endpoint != endpoint {
          assert kept[i] in kept;
        }
      }
    }
  }

  /**
   A node "b" was enrolled by password, not confirmed in time and revoked; the operator
   then added it by hand. When the enrollment of an unrelated node "c" runs out, the sweep
   removes "b".
   */
  lemma HandAddedPeerIsSwept()
    ensures var enrolled := Invite("1", 0, 10, true, "b", true, true);
            var unrelated := Invite("2", 20, 30, false, "c", true, true);
            var r := Roster([Peer("by-hand", "b"), Peer("invite-c", "c")], [enrolled, unrelated]);
            HasPeer(r.peers, "b") && Overdue(unrelated, 31) && !HasPeer(Expire(r, 31).peers, "b")
  {
    var enrolled := Invite("1", 0, 10, true, "b", true, true);
    var unrelated := Invite("2", 20, 30, false, "c", true, true);
    var r := Roster([Peer("by-hand", "b"), Peer("invite-c", "c")], [enrolled, unrelated]);
    assert r.peers[0].endpoint == "b" && r.invites[0] == enrolled && r.invites[1] == unrelated;
    SweepRemovesExactly(r, 31, "b");
  }

  lemma {:induction false} PeerOnce(peers: seq<Peer>, endpoint: EndpointId)
    requires DistinctPeers(peers)
    ensures PeerCount(peers, endpoint) == if HasPeer(peers, endpoint) then 1 else 0
  {
    if peers != [] {
      PeerOnce(peers[1..], endpoint);
      if peers[0].endpoint == endpoint {
        assert !HasPeer(peers[1..], endpoint);
      } else if HasPeer(peers, endpoint) {
        var i :| 0 <= i < |peers| && peers[i].endpoint == endpoint;
        assert peers[1..][i - 1].endpoint == endpoint;
      }
    }
  }
}
