/**
 The member's join workflow as one sequential call. Whatever the authority, the clock and
 other hosts do while it waits, the call takes the world from one state to another by a run of the
 enrollment protocol, so what holds of every run holds of every call.
 */
module JoinWorkflow {
  import opened Outcomes
  import opened Membership
  import opened EnrollmentProtocol

  /** What everyone else does during one wait: no step of this host's own workflow. */
  ghost predicate Elsewhere(actions: seq<Action>, h: Host) {
    forall i :: 0 <= i < |actions| ==> !(ByMember(actions[i]) && actions[i].host == h)
  }

  /** What the environment decides during one call. */
  datatype Choices = Choices(
    passwordGiven: bool,
    readable: bool,                          // an existing setup and its identity can be read
    persists: bool,                          // the identity reaches the disk
    generated: EndpointId,
    enrolling: seq<Action>,                  // meanwhile, while the enrollment is under way
    ticket: Option<(InviteId, nat)>,         // the ticket that is read, if one is
    committing: seq<Action>,
    bundle: BundleOutcome,
    confirming: seq<Action>,
    heard: bool,                             // the acceptance is read
    saves: bool,                             // the pending mark is cleared on disk
    reported: bool                           // and the save says so
  )

  lemma {:induction false} RunJoins(s: System, a: seq<Action>, b: seq<Action>)
    ensures Run(s, a + b) == Run(Run(s, a), b)
    decreases |a|
  {
    if a == [] {
      assert a + b == b;
    } else {
      assert (a + b)[1..] == a[1..] + b;
      RunJoins(Act(s, a[0]), a[1..], b);
    }
  }

  lemma ElsewhereOnce(s: System, a: Action, h: Host)
    requires h in s.members && !(ByMember(a) && a.host == h)
    ensures h in Act(s, a).members && Act(s, a).members[h] == s.members[h]
  {
  }

  lemma {:induction false} ElsewhereKeeps(s: System, actions: seq<Action>, h: Host)
    requires h in s.members && Elsewhere(actions, h)
    ensures h in Run(s, actions).members && Run(s, actions).members[h] == s.members[h]
    decreases |actions|
  {
    if actions != [] {
      ElsewhereOnce(s, actions[0], h);
      ElsewhereKeeps(Act(s, actions[0]), actions[1..], h);
    }
  }

  lemma OwnStep(s: System, a: Action, h: Host)
    requires h in s.members && ByMember(a) && a.host == h
    ensures h in Act(s, a).members && Act(s, a) == MemberActs(s, a)
  {
  }

  // ------------------------------------------------------- what a call amounts to

  /** The acceptance arrives and the cleared mark reaches the disk. */
  predicate Cleared(s: System, h: Host, w: Choices)
    requires Outstanding(s, h)
  {
    var Joined(member, invite, _) := s.members[h].local;
    w.heard && w.saves && ConfirmAccepted(invite, member) in Run(Act(s, SendConfirm(h)), w.confirming).network
  }

  function ConfirmSteps(s: System, h: Host, w: Choices): seq<Action>
    requires Outstanding(s, h)
  {
    [SendConfirm(h)] + w.confirming + [if Cleared(s, h, w) then ReceiveAccepted(h) else CrashMember(h)]
  }

  function Asking(h: Host, w: Choices): seq<Action> {
    [PersistIdentity(h, w.generated), SendEnroll(h)] + w.enrolling
  }

  predicate Enrolled(s: System, h: Host, w: Choices) {
    var asked := Run(s, Asking(h, w));
    && w.persists && w.ticket.Some? && h in asked.members && asked.members[h].identity.Some?
    && Ticket(w.ticket.value.0, asked.members[h].identity.value, w.ticket.value.1) in asked.network
  }

  function EnrollSteps(s: System, h: Host, w: Choices): seq<Action> {
    if !w.persists then []
    else if Enrolled(s, h, w) then Asking(h, w) + [ReceiveTicket(h, w.ticket.value.0, w.ticket.value.1)]
    else Asking(h, w) + [CrashMember(h)]
  }

  function FirstSteps(s: System, h: Host, w: Choices): seq<Action> {
    var first := EnrollSteps(s, h, w);
    if !Enrolled(s, h, w) then first
    else
      var committed := first + (w.committing + [WriteBundle(h, w.bundle)]);
      var t := Run(s, committed);
      if Outstanding(t, h) then committed + ConfirmSteps(t, h, w) else committed
  }

  /** The steps of one call, in the world it starts from. */
  function JoinSteps(s: System, h: Host, w: Choices): seq<Action>
    requires h in s.members
  {
    if !w.passwordGiven then []
    else if s.members[h].local == Absent then FirstSteps(s, h, w)
    else if w.readable && Outstanding(s, h) then ConfirmSteps(s, h, w)
    else []
  }

  class Workflow {
    const host: Host
    ghost const start: System
    var world: System
    ghost var taken: seq<Action>

    /** The world is what the steps taken so far made of it. */
    ghost predicate Valid()
      reads this
    {
      world == Run(start, taken) && host in world.members
    }

    ghost function Me(): Member
      reads this
      requires host in world.members
    {
      world.members[host]
    }

    constructor (host: Host, world: System)
      requires host in world.members
      ensures Valid() && this.host == host && this.world == world && start == world && taken == []
    {
      this.host, this.world, this.start, this.taken := host, world, world, [];
    }

    method Take(a: Action)
      requires Valid() && ByMember(a) && a.host == host
      modifies this
      ensures Valid() && world == MemberActs(old(world), a) && taken == old(taken) + [a]
    {
      OwnStep(world, a, host);
      RunJoins(start, taken, [a]);
      assert Run(world, [a]) == Act(world, a) by {
        assert [a][1..] == [];
      }
      world := Act(world, a);
      taken := taken + [a];
    }

    /** A wait, during which everyone else goes on. */
    method Wait(others: seq<Action>)
      requires Valid() && Elsewhere(others, host)
      modifies this
      ensures Valid() && world == Run(old(world), others) && Me() == old(Me()) && taken == old(taken) + others
    {
      ElsewhereKeeps(world, others, host);
      RunJoins(start, taken, others);
      world := Run(world, others);
      taken := taken + others;
    }

    /** Asks for the confirmation of a locally committed enrollment and waits for an answer. */
    method AskConfirmation(w: Choices)
      requires Valid() && Outstanding(world, host) && Elsewhere(w.confirming, host)
      modifies this
      ensures Valid() && taken == old(taken) + [SendConfirm(host)] + w.confirming
      ensures world == Run(Act(old(world), SendConfirm(host)), w.confirming)
      ensures Me() == old(Me()).(activity := AwaitingAcceptance(old(Me()).local.invite))
    {
      Take(SendConfirm(host));
      Wait(w.confirming);
    }

    /** Confirms a locally committed enrollment and clears its pending mark. */
    method ConfirmAndComplete(w: Choices) returns (ok: bool)
      requires Valid() && Outstanding(world, host) && Elsewhere(w.confirming, host)
      modifies this
      ensures Valid() && taken == old(taken) + ConfirmSteps(old(world), host, w)
      ensures Me() == old(Me()).(local := old(Me()).local.(pending := !Cleared(old(world), host, w)), activity := Idle)
      ensures ok == (Cleared(old(world), host, w) && w.reported)
    {
      var Joined(member, invite, _) := world.members[host].local;
      AskConfirmation(w);
      if !w.heard || ConfirmAccepted(invite, member) !in world.network || !w.saves {
        Take(CrashMember(host));
        return false;
      }
      Take(ReceiveAccepted(host));
      ok := w.reported;
    }

    /** Persists an identity and asks for a ticket for it. */
    method Ask(w: Choices)
      requires Valid() && Me().local == Absent && Me().activity == Idle && Elsewhere(w.enrolling, host)
      modifies this
      ensures Valid() && taken == old(taken) + Asking(host, w) && world == Run(old(world), Asking(host, w))
      ensures var identity := if old(Me()).identity.Some? then old(Me()).identity else Some(w.generated);
              Me() == Member(identity, Absent, Enrolling)
    {
      ghost var before := taken;
      Take(PersistIdentity(host, w.generated));
      Take(SendEnroll(host));
      Wait(w.enrolling);
      assert taken == before + Asking(host, w);
      RunJoins(start, before, Asking(host, w));
    }

    /** Reads a ticket for the persisted identity; true when there was one. */
    method Enroll(w: Choices) returns (enrolled: bool)
      requires Valid() && Me().local == Absent && Me().activity == Idle && Elsewhere(w.enrolling, host)
      modifies this
      ensures Valid() && taken == old(taken) + EnrollSteps(old(world), host, w)
      ensures enrolled == Enrolled(old(world), host, w)
      ensures Me().local == Absent && (old(Me()).identity.Some? ==> Me().identity == old(Me()).identity)
      ensures enrolled ==> Me().identity.Some? && Me().activity == Holding(w.ticket.value.0, w.ticket.value.1)
      ensures !enrolled ==> Me().activity == Idle
    {
      if !w.persists {
        return false;
      }
      Ask(w);
      var identity := world.members[host].identity.value;
      if w.ticket.None? || Ticket(w.ticket.value.0, identity, w.ticket.value.1) !in world.network {
        Take(CrashMember(host));
        return false;
      }
      Take(ReceiveTicket(host, w.ticket.value.0, w.ticket.value.1));
      enrolled := true;
    }

    /** Commits the ticket locally; true when the bundle was written. */
    method Commit(w: Choices) returns (committed: bool)
      requires Valid() && Me().local == Absent && Me().activity.Holding? && Me().identity.Some?
      requires Elsewhere(w.committing, host)
      modifies this
      ensures Valid() && taken == old(taken) + w.committing + [WriteBundle(host, w.bundle)]
      ensures Me().activity == Idle && Me().identity == old(Me()).identity
      ensures committed <==> w.bundle.Written? && world.clock <= old(Me()).activity.expires
      ensures committed ==> Outstanding(world, host) && Me().local.invite == old(Me()).activity.id
      ensures !committed ==> !Me().local.Joined?
    {
      Wait(w.committing);
      Take(WriteBundle(host, w.bundle));
      committed := world.members[host].local.Joined?;
    }

    /**
     A call that succeeds leaves the member joined with nothing pending, and then the
     authority has confirmed that very invite and admits the member. A call after that
     is entirely local. A retry keeps the identity it finds, and a joined member never
     changes its invite. What the call does is determined step by step by what it meets.
     */
    method JoinNetwork(ghost r0: Roster, w: Choices) returns (ok: bool)
      requires Valid() && Inv(r0, start) && Me().activity == Idle
      requires Elsewhere(w.enrolling, host) && Elsewhere(w.committing, host) && Elsewhere(w.confirming, host)
      modifies this
      ensures Valid() && taken == old(taken) + JoinSteps(old(world), host, w) && Me().activity == Idle
      ensures ok ==> Completed(world, host) && Admits(world, Me().local.invite, Me().local.member)
      ensures Completed(world, host) && w.passwordGiven && w.readable && w.reported ==> ok
      ensures old(Completed(world, host)) ==> world == old(world) && ok == (w.passwordGiven && w.readable)
      ensures !w.passwordGiven || old(Me()).local == Incomplete ==> !ok && world == old(world)
      ensures old(Me()).identity.Some? ==> Me().identity == old(Me()).identity
      ensures old(Me()).local.Joined? ==> Me().local.Joined? && Me().local.invite == old(Me()).local.invite
    {
      if !w.passwordGiven {
        return false;
      }
      match world.members[host].local {
        case Incomplete => return false;
        case Joined(member, _, pending) =>
          if !w.readable {
            return false;
          } else if !pending {
            ok := true;
          } else if world.members[host].identity != Some(member) {
            return false;
          } else {
            ok := ConfirmAndComplete(w);
          }
        case Absent => ok := FirstJoin(w);
      }
      if ok {
        CompletedIsAdmitted(r0, start, taken, host);
      }
    }

    method FirstJoin(w: Choices) returns (ok: bool)
      requires Valid() && Me().local == Absent && Me().activity == Idle
      requires Elsewhere(w.enrolling, host) && Elsewhere(w.committing, host) && Elsewhere(w.confirming, host)
      modifies this
      ensures Valid() && taken == old(taken) + FirstSteps(old(world), host, w) && Me().activity == Idle
      ensures ok ==> Completed(world, host)
      ensures Completed(world, host) && w.reported ==> ok
      ensures old(Me()).identity.Some? ==> Me().identity == old(Me()).identity
    {
      ghost var before := taken;
      ghost var first := EnrollSteps(world, host, w);
      var enrolled := Enroll(w);
      RunJoins(start, before, first);
      if !enrolled {
        return false;
      }
      ghost var middle := w.committing + [WriteBundle(host, w.bundle)];
      var committed := Commit(w);
      assert taken == before + (first + middle);
      RunJoins(start, before, first + middle);
      if !committed {
        return false;
      }
      ok := ConfirmAndComplete(w);
    }
  }

  /** Agreement from any state the protocol's invariant allows. */
  lemma CompletedIsAdmitted(r0: Roster, s: System, actions: seq<Action>, h: Host)
    requires Inv(r0, s) && Completed(Run(s, actions), h)
    ensures var t := Run(s, actions); Admits(t, t.members[h].local.invite, t.members[h].local.member)
  {
    RunKeeps(r0, s, actions);
    var t := Run(s, actions);
    assert MemberTrue(t, t.members[h]);
    AcceptedIsAdmitted(r0, t, t.members[h].local.invite, t.members[h].local.member);
  }
}
