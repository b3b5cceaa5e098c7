/**
 Password enrollment as a distributed protocol. Any number of authority tasks
 (join handlers, confirmation handlers and expiry sweeps) share one committer and
 one set of records; any number of members persist an identity, enroll, commit
 locally with a pending confirmation, confirm, and clear the pending mark.

 `Act` performs one action, or nothing when the action is not enabled, so a run is
 any sequence of actions. Messages may be lost, delayed or repeated, members may
 crash anywhere, the daemon may restart, and the clock may advance at any time.
 */
module EnrollmentProtocol {
  import opened Outcomes
  import opened Membership

  // ------------------------------------------------------------------ state

  /** One load-modify-save section of an authority task. */
  datatype Op = Expiring | Creating | Confirming | Undoing(id: InviteId)

  datatype Phase =
    | Waiting                                       // for the committer
    | Ready(op: Op)                                 // holds the committer, about to load
    | Loaded(op: Op, now: nat, snapshot: Roster)    // has loaded, about to save
    | ExpiryReload                                  // awaits the reload after a changing sweep
    | CreationReload(id: InviteId, expires: nat)    // awaits the reload of a new member
    | UndoReload                                    // awaits the reload after a rollback

  datatype Kind = Join(member: EndpointId) | Confirmer(id: InviteId, member: EndpointId) | Sweeper

  datatype Task = Task(kind: Kind, phase: Phase)

  type TaskId = nat
  type Host = nat

  datatype Message =
    | EnrollRequest(member: EndpointId)
    | Ticket(id: InviteId, member: EndpointId, expires: nat)
    | ConfirmRequest(id: InviteId, member: EndpointId)
    | ConfirmAccepted(id: InviteId, member: EndpointId)

  /** The member's configuration and product state: both absent, only one of them, or both. */
  datatype Local =
    | Absent
    | Incomplete
    | Joined(member: EndpointId, invite: InviteId, pending: bool)

  datatype Activity = Idle | Enrolling | Holding(id: InviteId, expires: nat) | AwaitingAcceptance(id: InviteId)

  datatype Member = Member(identity: Option<EndpointId>, local: Local, activity: Activity)

  datatype System = System(
    records: Roster,
    log: seq<Transaction>,
    clock: nat,
    committer: Option<TaskId>,
    tasks: map<TaskId, Task>,
    network: set<Message>,
    members: map<Host, Member>
  )

  function Start(records: Roster, clock: nat, hosts: map<Host, Option<EndpointId>>): System {
    System(records, [], clock, None, map[], {}, map h | h in hosts :: Member(hosts[h], Absent, Idle))
  }

  // --------------------------------------------------------- authority tasks

  function Release(s: System, t: TaskId): System {
    s.(committer := None, tasks := s.tasks - {t})
  }

  function Continue(s: System, t: TaskId, phase: Phase): System
    requires t in s.tasks
  {
    s.(tasks := s.tasks[t := s.tasks[t].(phase := phase)])
  }

  function FirstOp(kind: Kind): Op {
    match kind
    case Confirmer(_, _) => Confirming
    case _ => Expiring
  }

  /** A join goes on to create its invite; a sweep is finished. */
  function AfterExpiry(s: System, t: TaskId): System
    requires t in s.tasks
  {
    if s.tasks[t].kind.Join? then Continue(s, t, Ready(Creating)) else Release(s, t)
  }

  function Saved(s: System, records: Roster, entry: Transaction): System {
    s.(records := records, log := s.log + [entry])
  }

  predicate HasLoaded(s: System, t: TaskId, op: Op) {
    t in s.tasks && s.tasks[t].phase.Loaded? && s.tasks[t].phase.op == op
  }

  function SaveExpiry(s: System, t: TaskId, saves: bool): System
    requires HasLoaded(s, t, Expiring)
  {
    var Loaded(_, now, snapshot) := s.tasks[t].phase;
    if !AnyOverdue(snapshot.invites, now) then AfterExpiry(s, t)
    else if !saves then Release(s, t)
    else Continue(Saved(s, Expire(snapshot, now), Sweep(now)), t, ExpiryReload)
  }

  /** Random invite ids do not repeat: a creation that would reuse one is no action. */
  function SaveCreation(s: System, t: TaskId, id: InviteId, lifetime: nat, checks: bool, saves: bool): System
    requires HasLoaded(s, t, Creating) && s.tasks[t].kind.Join?
  {
    var member, snapshot := s.tasks[t].kind.member, s.tasks[t].phase.snapshot;
    var result := Create(snapshot, id, member, s.clock, lifetime, true, checks);
    if HasInvite(snapshot.invites, id) then s
    else if !saves || result.Err? then Release(s, t)
    else Continue(Saved(s, result.value, Creation(id, member, s.clock, lifetime, true, checks)),
                  t, CreationReload(id, s.clock + lifetime))
  }

  function SaveConfirmation(s: System, t: TaskId, saves: bool): System
    requires HasLoaded(s, t, Confirming) && s.tasks[t].kind.Confirmer?
  {
    var Confirmer(id, member), snapshot := s.tasks[t].kind, s.tasks[t].phase.snapshot;
    var result := Confirm(snapshot, id, member, s.clock);
    if result.Err? || (!saves && result.value != snapshot) then Release(s, t)
    else Release(Send(Saved(s, result.value, Confirmation(id, member, s.clock)), ConfirmAccepted(id, member)), t)
  }

  function SaveUndo(s: System, t: TaskId, undone: InviteId, saves: bool): System
    requires HasLoaded(s, t, Undoing(undone))
  {
    var result := Revoke(s.tasks[t].phase.snapshot, undone);
    if !saves || result.Err? then Release(s, t)
    else Continue(Saved(s, result.value, Rollback(undone)), t, UndoReload)
  }

  /**
   The modify and save half of a section. `id`, `lifetime` and `checks` feed a
   creation and `saves` is the outcome of the save transaction.
   */
  function Save(s: System, t: TaskId, id: InviteId, lifetime: nat, checks: bool, saves: bool): System
    requires t in s.tasks && s.tasks[t].phase.Loaded?
  {
    match s.tasks[t].phase.op
    case Expiring => SaveExpiry(s, t, saves)
    case Creating => if s.tasks[t].kind.Join? then SaveCreation(s, t, id, lifetime, checks, saves) else s
    case Confirming => if s.tasks[t].kind.Confirmer? then SaveConfirmation(s, t, saves) else s
    case Undoing(undone) => SaveUndo(s, t, undone, saves)
  }

  /** The supervisor's answer to a reload request. */
  function Reloaded(s: System, t: TaskId, accepted: bool): System
    requires t in s.tasks
  {
    var Task(kind, phase) := s.tasks[t];
    match phase
    case ExpiryReload => if accepted then AfterExpiry(s, t) else Release(s, t)
    case CreationReload(id, expires) =>
      if !accepted then Continue(s, t, Ready(Undoing(id)))
      else if kind.Join? then Release(s.(network := s.network + {Ticket(id, kind.member, expires)}), t)
      else Release(s, t)
    case UndoReload => Release(s, t)
    case _ => s
  }

  // ----------------------------------------------------------------- actions

  datatype BundleOutcome = Written | RolledBack | Interrupted

  datatype Action =
    | Tick(to: nat)
    | AcceptJoin(task: TaskId, member: EndpointId)
    | AcceptConfirm(task: TaskId, id: InviteId, member: EndpointId)
    | StartSweep(task: TaskId)
    | Acquire(task: TaskId)
    | Load(task: TaskId, readable: bool)
    | SaveSection(task: TaskId, id: InviteId, lifetime: nat, checks: bool, saves: bool)
    | AnswerReload(task: TaskId, accepted: bool)
    | RestartDaemon
    | OperatorCreates(id: InviteId, member: EndpointId, lifetime: nat, checks: bool)
    | OperatorRevokes(id: InviteId)
    | PersistIdentity(host: Host, generated: EndpointId)
    | SendEnroll(host: Host)
    | ReceiveTicket(host: Host, id: InviteId, expires: nat)
    | WriteBundle(host: Host, outcome: BundleOutcome)
    | SendConfirm(host: Host)
    | ReceiveAccepted(host: Host)
    | CrashMember(host: Host)

  function Act(s: System, a: Action): System {
    match a
    case Tick(to) => if s.clock <= to then s.(clock := to) else s
    case AcceptJoin(t, member) =>
      if t in s.tasks || EnrollRequest(member) !in s.network then s
      else s.(tasks := s.tasks[t := Task(Join(member), Waiting)])
    case AcceptConfirm(t, id, member) =>
      if t in s.tasks || ConfirmRequest(id, member) !in s.network then s
      else s.(tasks := s.tasks[t := Task(Confirmer(id, member), Waiting)])
    case StartSweep(t) =>
      if t in s.tasks then s else s.(tasks := s.tasks[t := Task(Sweeper, Waiting)])
    case Acquire(t) =>
      if s.committer.Some? || t !in s.tasks then s
      else Continue(s.(committer := Some(t)), t, Ready(FirstOp(s.tasks[t].kind)))
    case Load(t, readable) =>
      if t !in s.tasks || !s.tasks[t].phase.Ready? then s
      else if !readable then Release(s, t)
      else Continue(s, t, Loaded(s.tasks[t].phase.op, s.clock, s.records))
    case SaveSection(t, id, lifetime, checks, saves) =>
      if t !in s.tasks || !s.tasks[t].phase.Loaded? then s else Save(s, t, id, lifetime, checks, saves)
    case AnswerReload(t, accepted) => if t !in s.tasks then s else Reloaded(s, t, accepted)
    case RestartDaemon => s.(committer := None, tasks := map[])
    case OperatorCreates(id, member, lifetime, checks) =>
      if s.committer.Some? || HasInvite(s.records.invites, id) then s
      else
        var entry := Creation(id, member, s.clock, lifetime, false, checks);
        Saved(s, Commit(s.records, entry), entry)
    case OperatorRevokes(id) =>
      if s.committer.Some? || !HasInvite(s.records.invites, id) then s
      else Saved(s, Commit(s.records, OperatorRevocation(id)), OperatorRevocation(id))
    case _ => if a.host !in s.members then s else MemberActs(s, a)
  }

  function Update(s: System, h: Host, m: Member): System {
    s.(members := s.members[h := m])
  }

  function Send(s: System, message: Message): System {
    s.(network := s.network + {message})
  }

  predicate ByMember(a: Action) {
    a.PersistIdentity? || a.SendEnroll? || a.ReceiveTicket? || a.WriteBundle? || a.SendConfirm? ||
    a.ReceiveAccepted? || a.CrashMember?
  }

  /** The member's join workflow, one persisting or sending step at a time. */
  function MemberActs(s: System, a: Action): System
    requires ByMember(a) && a.host in s.members
  {
    var h := a.host;
    var m := s.members[h];
    match a
    case PersistIdentity(_, generated) =>
      if m.local != Absent || m.identity.Some? then s else Update(s, h, m.(identity := Some(generated)))
    case SendEnroll(_) =>
      if m.local != Absent || m.identity.None? || m.activity != Idle then s
      else Send(Update(s, h, m.(activity := Enrolling)), EnrollRequest(m.identity.value))
    case ReceiveTicket(_, id, expires) =>
      if m.activity != Enrolling || m.identity.None? || Ticket(id, m.identity.value, expires) !in s.network then s
      else Update(s, h, m.(activity := Holding(id, expires)))
    case WriteBundle(_, outcome) =>
      if !m.activity.Holding? || m.identity.None? || m.local != Absent then s
      else if m.activity.expires < s.clock || outcome.RolledBack? then Update(s, h, m.(activity := Idle))
      else if outcome.Interrupted? then Update(s, h, m.(local := Incomplete, activity := Idle))
      else Update(s, h, m.(local := Joined(m.identity.value, m.activity.id, true), activity := Idle))
    case SendConfirm(_) =>
      if !m.local.Joined? || !m.local.pending || m.identity != Some(m.local.member) then s
      else Send(Update(s, h, m.(activity := AwaitingAcceptance(m.local.invite))),
                ConfirmRequest(m.local.invite, m.local.member))
    case ReceiveAccepted(_) =>
      if !m.activity.AwaitingAcceptance? || !m.local.Joined? || !m.local.pending
         || m.activity.id != m.local.invite
         || ConfirmAccepted(m.local.invite, m.local.member) !in s.network then s
      else Update(s, h, m.(local := m.local.(pending := false), activity := Idle))
    case CrashMember(_) => Update(s, h, m.(activity := Idle))
  }

  function Run(s: System, actions: seq<Action>): System
    decreases |actions|
  {
    if actions == [] then s else Run(Act(s, actions[0]), actions[1..])
  }

  // --------------------------------------------------------------- invariant

  ghost predicate Issued(network: set<Message>, id: InviteId) {
    exists message :: message in network && message.Ticket? && message.id == id
  }

  ghost predicate IssuedTo(network: set<Message>, id: InviteId, member: EndpointId) {
    exists message :: message in network && message.Ticket? && message.id == id && message.member == member
  }

  /** The record of an invite, for its member. */
  ghost predicate Recorded(r: Roster, id: InviteId, member: EndpointId) {
    exists i :: 0 <= i < |r.invites| && r.invites[i].id == id && r.invites[i].member == member
  }

  ghost predicate ConfirmedRecord(r: Roster, id: InviteId, member: EndpointId) {
    exists i :: 0 <= i < |r.invites| && r.invites[i].id == id && r.invites[i].member == member && !r.invites[i].pending
  }

  ghost predicate UnrevokedRecord(r: Roster, id: InviteId) {
    exists i :: 0 <= i < |r.invites| && r.invites[i].id == id && !r.invites[i].revoked
  }

  ghost predicate PendingRecord(r: Roster, id: InviteId) {
    exists i :: 0 <= i < |r.invites| && r.invites[i].id == id && r.invites[i].pending
  }

  /** The committer is held by exactly the task that has left `Waiting`. */
  ghost predicate Exclusive(s: System) {
    && (s.committer.Some? ==> s.committer.value in s.tasks)
    && (forall t :: t in s.tasks ==> (s.tasks[t].phase.Waiting? <==> s.committer != Some(t)))
  }

  /** A loaded snapshot is still what is on disk. */
  ghost predicate SnapshotsCurrent(s: System) {
    forall t :: t in s.tasks && s.tasks[t].phase.Loaded? ==> s.tasks[t].phase.snapshot == s.records
  }

  /** An invite whose creator is still deciding has not been handed out. */
  ghost predicate Undecided(s: System, t: TaskId, id: InviteId)
    requires t in s.tasks
  {
    var Task(kind, phase) := s.tasks[t];
    || (phase.CreationReload? && phase.id == id)
    || ((phase.Ready? || phase.Loaded?) && phase.op == Undoing(id))
  }

  ghost predicate UndecidedUnissued(s: System) {
    forall t, id :: t in s.tasks && Undecided(s, t, id) ==>
      !Issued(s.network, id) && PendingRecord(s.records, id)
      && (s.tasks[t].phase.CreationReload? ==> Rollback(id) !in s.log)
      && (s.tasks[t].phase.CreationReload? && s.tasks[t].kind.Join? ==> Recorded(s.records, id, s.tasks[t].kind.member))
  }

  ghost predicate ConfirmersAsked(s: System) {
    forall t :: t in s.tasks && s.tasks[t].kind.Confirmer? ==>
      IssuedTo(s.network, s.tasks[t].kind.id, s.tasks[t].kind.member)
  }

  ghost predicate MessageTrue(s: System, message: Message) {
    match message
    case EnrollRequest(_) => true
    case Ticket(id, member, _) => Recorded(s.records, id, member)
    case ConfirmRequest(id, member) => IssuedTo(s.network, id, member)
    case ConfirmAccepted(id, member) =>
      && IssuedTo(s.network, id, member)
      && ConfirmedRecord(s.records, id, member)
      && (UnrevokedRecord(s.records, id) || OperatorRevocation(id) in s.log)
  }

  ghost predicate MessagesTrue(s: System) {
    forall message :: message in s.network ==> MessageTrue(s, message)
  }

  ghost predicate MemberTrue(s: System, m: Member) {
    && (m.activity.Holding? ==> m.identity.Some? && IssuedTo(s.network, m.activity.id, m.identity.value))
    && (m.local.Joined? ==> IssuedTo(s.network, m.local.invite, m.local.member))
    && (m.local.Joined? && !m.local.pending ==> ConfirmAccepted(m.local.invite, m.local.member) in s.network)
  }

  ghost predicate MembersTrue(s: System) {
    forall h :: h in s.members ==> MemberTrue(s, s.members[h])
  }

  /** A rolled-back invite is still unconfirmed and was never handed out. */
  ghost predicate RollbacksUnissued(s: System) {
    forall id :: Rollback(id) in s.log ==> !Issued(s.network, id) && PendingRecord(s.records, id)
  }

  ghost predicate RevokedRecord(r: Roster, id: InviteId) {
    exists i :: 0 <= i < |r.invites| && r.invites[i].id == id && r.invites[i].revoked
  }

  /** The log holds only operator revocations that found their invite. */
  ghost predicate RevocationsEffective(s: System) {
    forall id :: OperatorRevocation(id) in s.log ==> RevokedRecord(s.records, id)
  }

  ghost predicate Serialised(r0: Roster, s: System) {
    && FreshRun(r0, s.log)
    && s.records == Replay(r0, s.log)
  }

  ghost predicate Inv(r0: Roster, s: System) {
    && Serialised(r0, s)
    && Admissible(s.records)
    && Exclusive(s)
    && SnapshotsCurrent(s)
    && UndecidedUnissued(s)
    && ConfirmersAsked(s)
    && MessagesTrue(s)
    && MembersTrue(s)
    && RollbacksUnissued(s)
    && RevocationsEffective(s)
  }

  // ---------------------------------------------------- what a commit keeps

  lemma RecordKept(r: Roster, t: Transaction, i: nat)
    requires i < |r.invites|
    ensures i < |Commit(r, t).invites|
    ensures Evolves(r.invites[i], Commit(r, t).invites[i], t)
  {
    CommitEvolves(r, t);
  }

  lemma CommitKeepsRecorded(r: Roster, t: Transaction, id: InviteId, member: EndpointId)
    ensures Recorded(r, id, member) ==> Recorded(Commit(r, t), id, member)
    ensures ConfirmedRecord(r, id, member) ==> ConfirmedRecord(Commit(r, t), id, member)
  {
    CommitEvolves(r, t);
    var next := Commit(r, t);
    if Recorded(r, id, member) {
      var i :| 0 <= i < |r.invites| && r.invites[i].id == id && r.invites[i].member == member;
      assert Evolves(r.invites[i], next.invites[i], t);
    }
    if ConfirmedRecord(r, id, member) {
      var i :| 0 <= i < |r.invites| && r.invites[i].id == id && r.invites[i].member == member && !r.invites[i].pending;
      assert Evolves(r.invites[i], next.invites[i], t);
    }
  }

  /** Only a confirmation of that very invite ends its pending state. */
  lemma CommitKeepsPending(r: Roster, t: Transaction, id: InviteId)
    requires PendingRecord(r, id) && !(t.Confirmation? && t.id == id)
    ensures PendingRecord(Commit(r, t), id)
  {
    var i :| 0 <= i < |r.invites| && r.invites[i].id == id && r.invites[i].pending;
    RecordKept(r, t, i);
  }

  /** A confirmed invite is revoked only by a rollback of it or by the operator. */
  lemma CommitKeepsUnrevoked(r: Roster, t: Transaction, id: InviteId, member: EndpointId)
    requires DistinctIds(r.invites) && ConfirmedRecord(r, id, member) && UnrevokedRecord(r, id)
    requires !((t.Rollback? || t.OperatorRevocation?) && t.id == id)
    ensures UnrevokedRecord(Commit(r, t), id)
  {
    var i :| 0 <= i < |r.invites| && r.invites[i].id == id && r.invites[i].member == member && !r.invites[i].pending;
    var j :| 0 <= j < |r.invites| && r.invites[j].id == id && !r.invites[j].revoked;
    assert i == j;
    RecordKept(r, t, i);
  }

  lemma PendingIsNotConfirmed(r: Roster, id: InviteId, member: EndpointId)
    requires DistinctIds(r.invites) && PendingRecord(r, id)
    ensures !ConfirmedRecord(r, id, member)
    ensures HasInvite(r.invites, id)
  {
  }

  /** A transaction the protocol may log, given what has been handed out. */
  ghost predicate Allowed(s: System, entry: Transaction) {
    && FreshId(s.records, entry)
    && (entry.Confirmation? ==> IssuedTo(s.network, entry.id, entry.member))
    && (entry.Rollback? ==> !Issued(s.network, entry.id) && PendingRecord(s.records, entry.id))
    && (entry.OperatorRevocation? ==> HasInvite(s.records.invites, entry.id))
  }

  lemma SerialisedGrows(r0: Roster, s: System, entry: Transaction)
    requires Serialised(r0, s) && FreshId(s.records, entry)
    ensures Serialised(r0, Saved(s, Commit(s.records, entry), entry))
  {
    var log := s.log + [entry];
    assert log[..|s.log|] == s.log;
    forall n | 0 <= n < |log|
      ensures FreshId(Replay(r0, log[..n]), log[n])
    {
      if n < |s.log| {
        assert log[..n] == s.log[..n];
      }
    }
  }

  /** The invariant without the part about the committer and its tasks. */
  ghost predicate Core(r0: Roster, s: System) {
    && Serialised(r0, s) && Admissible(s.records) && ConfirmersAsked(s) && MessagesTrue(s) && MembersTrue(s)
    && RollbacksUnissued(s) && RevocationsEffective(s)
  }

  lemma SavedKeepsMessage(s: System, entry: Transaction, message: Message)
    requires DistinctIds(s.records.invites) && Allowed(s, entry) && MessageTrue(s, message)
    ensures MessageTrue(Saved(s, Commit(s.records, entry), entry), message)
  {
    if message.Ticket? || message.ConfirmAccepted? {
      CommitKeepsRecorded(s.records, entry, message.id, message.member);
    }
    if message.ConfirmAccepted? && UnrevokedRecord(s.records, message.id) && entry != OperatorRevocation(message.id) {
      CommitKeepsUnrevoked(s.records, entry, message.id, message.member);
    }
  }

  lemma SavedKeepsRollback(s: System, entry: Transaction, id: InviteId)
    requires Allowed(s, entry) && RollbacksUnissued(s) && (Rollback(id) in s.log || entry == Rollback(id))
    ensures !Issued(s.network, id) && PendingRecord(Commit(s.records, entry), id)
  {
    CommitKeepsPending(s.records, entry, id);
  }

  lemma SavedKeepsRevocation(s: System, entry: Transaction, id: InviteId)
    requires Allowed(s, entry) && RevocationsEffective(s)
    requires OperatorRevocation(id) in s.log || entry == OperatorRevocation(id)
    ensures RevokedRecord(Commit(s.records, entry), id)
  {
    if OperatorRevocation(id) in s.log {
      var i :| 0 <= i < |s.records.invites| && s.records.invites[i].id == id && s.records.invites[i].revoked;
      RecordKept(s.records, entry, i);
    } else {
      var k := Find(s.records.invites, id);
      assert Commit(s.records, entry).invites[k].revoked;
    }
  }

  lemma SavedKeepsCore(r0: Roster, s: System, entry: Transaction)
    requires Core(r0, s) && Allowed(s, entry)
    ensures Core(r0, Saved(s, Commit(s.records, entry), entry))
  {
    var records := Commit(s.records, entry);
    var next := Saved(s, records, entry);
    assert Serialised(r0, next) by { SerialisedGrows(r0, s, entry); }
    assert Admissible(records) by { CommitAdmissible(s.records, entry); }
    assert MessagesTrue(next) by {
      forall message | message in next.network
        ensures MessageTrue(next, message)
      {
        SavedKeepsMessage(s, entry, message);
      }
    }
    assert RollbacksUnissued(next) by {
      forall id | Rollback(id) in next.log
        ensures !Issued(next.network, id) && PendingRecord(records, id)
      {
        SavedKeepsRollback(s, entry, id);
      }
    }
    assert RevocationsEffective(next) by {
      forall id | OperatorRevocation(id) in next.log
        ensures RevokedRecord(records, id)
      {
        SavedKeepsRevocation(s, entry, id);
      }
    }
    assert MembersTrue(next) by {
      assert forall h :: h in next.members ==> MemberTrue(s, next.members[h]);
    }
  }

  /** A new message keeps every claim already made. */
  lemma SendKeepsCore(r0: Roster, s: System, message: Message)
    requires Core(r0, s) && MessageTrue(Send(s, message), message)
    requires message.Ticket? ==> Rollback(message.id) !in s.log
    ensures Core(r0, Send(s, message))
  {
    var next := Send(s, message);
    assert forall id, member :: IssuedTo(s.network, id, member) ==> IssuedTo(next.network, id, member);
    forall old_ | old_ in s.network
      ensures MessageTrue(next, old_)
    {
      assert MessageTrue(s, old_);
    }
    forall h | h in next.members
      ensures MemberTrue(next, next.members[h])
    {
      assert MemberTrue(s, s.members[h]);
    }
  }

  // ------------------------------------------------------- authority actions

  lemma ReleaseKeeps(r0: Roster, s: System, t: TaskId)
    requires Core(r0, s) && Exclusive(s) && t in s.tasks && !s.tasks[t].phase.Waiting?
    ensures Inv(r0, Release(s, t))
  {
    var next := Release(s, t);
    assert forall u :: u in next.tasks ==> u in s.tasks && next.tasks[u] == s.tasks[u] && next.tasks[u].phase.Waiting?;
    assert forall h :: h in next.members ==> MemberTrue(s, next.members[h]);
    assert forall message :: message in next.network ==> MessageTrue(s, message);
  }

  /** The holder moves to a phase whose own claims hold. */
  lemma ContinueKeeps(r0: Roster, s: System, t: TaskId, phase: Phase)
    requires Core(r0, s) && Exclusive(s) && t in s.tasks && !s.tasks[t].phase.Waiting? && !phase.Waiting?
    requires phase.Loaded? ==> phase.snapshot == s.records
    requires forall id :: Undecided(Continue(s, t, phase), t, id) ==>
               !Issued(s.network, id) && PendingRecord(s.records, id)
               && (phase.CreationReload? ==> Rollback(id) !in s.log)
               && (phase.CreationReload? && s.tasks[t].kind.Join? ==> Recorded(s.records, id, s.tasks[t].kind.member))
    ensures Inv(r0, Continue(s, t, phase))
  {
    var next := Continue(s, t, phase);
    assert forall u :: u in next.tasks && u != t ==> next.tasks[u] == s.tasks[u] && next.tasks[u].phase.Waiting?;
    assert forall h :: h in next.members ==> MemberTrue(s, next.members[h]);
    assert forall message :: message in next.network ==> MessageTrue(s, message);
  }

  lemma AfterExpiryKeeps(r0: Roster, s: System, t: TaskId)
    requires Core(r0, s) && Exclusive(s) && t in s.tasks && !s.tasks[t].phase.Waiting?
    ensures Inv(r0, AfterExpiry(s, t))
  {
    if s.tasks[t].kind.Join? {
      ContinueKeeps(r0, s, t, Ready(Creating));
    } else {
      ReleaseKeeps(r0, s, t);
    }
  }

  lemma SaveExpiryKeeps(r0: Roster, s: System, t: TaskId, saves: bool)
    requires Inv(r0, s) && HasLoaded(s, t, Expiring)
    ensures Inv(r0, SaveExpiry(s, t, saves))
  {
    var Loaded(_, now, snapshot) := s.tasks[t].phase;
    if !AnyOverdue(snapshot.invites, now) {
      AfterExpiryKeeps(r0, s, t);
    } else if !saves {
      ReleaseKeeps(r0, s, t);
    } else {
      SavedKeepsCore(r0, s, Sweep(now));
      ContinueKeeps(r0, Saved(s, Expire(snapshot, now), Sweep(now)), t, ExpiryReload);
    }
  }

  /** An unused id appears in no ticket and in no rollback. */
  lemma FreshIsUnissued(s: System, id: InviteId)
    requires MessagesTrue(s) && RollbacksUnissued(s) && !HasInvite(s.records.invites, id)
    ensures !Issued(s.network, id) && Rollback(id) !in s.log
  {
    forall message | message in s.network && message.Ticket?
      ensures message.id != id
    {
      assert MessageTrue(s, message);
    }
  }

  lemma CreatedIsPending(r: Roster, entry: Transaction)
    requires entry.Creation? && entry.password
    requires Create(r, entry.id, entry.member, entry.now, entry.lifetime, true, entry.checks).Ok?
    ensures PendingRecord(Commit(r, entry), entry.id) && Recorded(Commit(r, entry), entry.id, entry.member)
  {
    var last := Commit(r, entry).invites[|r.invites|];
    assert last.id == entry.id && last.member == entry.member && last.pending;
  }

  lemma CreationKeeps(r0: Roster, s: System, t: TaskId, entry: Transaction)
    requires Core(r0, s) && Exclusive(s) && t in s.tasks && s.tasks[t].phase.Loaded?
    requires entry.Creation? && entry.password && s.tasks[t].kind == Join(entry.member)
    requires FreshId(s.records, entry)
    requires PendingRecord(Commit(s.records, entry), entry.id)
    requires Recorded(Commit(s.records, entry), entry.id, entry.member)
    ensures Inv(r0, Continue(Saved(s, Commit(s.records, entry), entry), t,
                             CreationReload(entry.id, entry.now + entry.lifetime)))
  {
    SavedKeepsCore(r0, s, entry);
    FreshIsUnissued(s, entry.id);
    ContinueKeeps(r0, Saved(s, Commit(s.records, entry), entry), t,
                  CreationReload(entry.id, entry.now + entry.lifetime));
  }

  lemma SaveCreationCases(s: System, t: TaskId, entry: Transaction, saves: bool)
    requires HasLoaded(s, t, Creating) && s.tasks[t].phase.snapshot == s.records
    requires entry.Creation? && entry.password && entry.now == s.clock && s.tasks[t].kind == Join(entry.member)
    ensures var next := SaveCreation(s, t, entry.id, entry.lifetime, entry.checks, saves);
            || next == s
            || next == Release(s, t)
            || (&& next == Continue(Saved(s, Commit(s.records, entry), entry), t,
                                    CreationReload(entry.id, entry.now + entry.lifetime))
                && FreshId(s.records, entry)
                && PendingRecord(Commit(s.records, entry), entry.id)
                && Recorded(Commit(s.records, entry), entry.id, entry.member))
  {
    var result := Create(s.records, entry.id, entry.member, s.clock, entry.lifetime, true, entry.checks);
    if !HasInvite(s.records.invites, entry.id) && saves && result.Ok? {
      CreatedIsPending(s.records, entry);
    }
  }

  lemma SaveCreationKeeps(r0: Roster, s: System, t: TaskId, id: InviteId, lifetime: nat, checks: bool, saves: bool)
    requires Inv(r0, s) && HasLoaded(s, t, Creating) && s.tasks[t].kind.Join?
    ensures Inv(r0, SaveCreation(s, t, id, lifetime, checks, saves))
  {
    var entry := Creation(id, s.tasks[t].kind.member, s.clock, lifetime, true, checks);
    SaveCreationCases(s, t, entry, saves);
    if SaveCreation(s, t, id, lifetime, checks, saves) == Release(s, t) {
      ReleaseKeeps(r0, s, t);
    } else if SaveCreation(s, t, id, lifetime, checks, saves) != s {
      CreationKeeps(r0, s, t, entry);
    }
  }

  lemma ConfirmedIsRecorded(r: Roster, id: InviteId, member: EndpointId, now: nat)
    requires Confirm(r, id, member, now).Ok?
    ensures var next := Confirm(r, id, member, now).value;
            ConfirmedRecord(next, id, member) && UnrevokedRecord(next, id)
  {
    var next := Confirm(r, id, member, now).value;
    var k := Find(r.invites, id);
    assert next.invites[k].id == id && next.invites[k].member == member;
    assert !next.invites[k].pending && !next.invites[k].revoked;
  }

  lemma SaveConfirmationKeeps(r0: Roster, s: System, t: TaskId, saves: bool)
    requires Inv(r0, s) && HasLoaded(s, t, Confirming) && s.tasks[t].kind.Confirmer?
    ensures Inv(r0, SaveConfirmation(s, t, saves))
  {
    var Confirmer(id, member) := s.tasks[t].kind;
    var result := Confirm(s.records, id, member, s.clock);
    if result.Err? || (!saves && result.value != s.records) {
      ReleaseKeeps(r0, s, t);
    } else {
      ConfirmedIsRecorded(s.records, id, member, s.clock);
      SavedKeepsCore(r0, s, Confirmation(id, member, s.clock));
      var next := Saved(s, result.value, Confirmation(id, member, s.clock));
      var sent := Send(next, ConfirmAccepted(id, member));
      assert IssuedTo(sent.network, id, member) by {
        assert IssuedTo(s.network, id, member);
      }
      SendKeepsCore(r0, next, ConfirmAccepted(id, member));
      ReleaseKeeps(r0, sent, t);
    }
  }

  lemma SaveUndoKeeps(r0: Roster, s: System, t: TaskId, undone: InviteId, saves: bool)
    requires Inv(r0, s) && HasLoaded(s, t, Undoing(undone))
    ensures Inv(r0, SaveUndo(s, t, undone, saves))
  {
    assert Undecided(s, t, undone);
    var result := Revoke(s.records, undone);
    if !saves || result.Err? {
      ReleaseKeeps(r0, s, t);
    } else {
      SavedKeepsCore(r0, s, Rollback(undone));
      ContinueKeeps(r0, Saved(s, result.value, Rollback(undone)), t, UndoReload);
    }
  }

  lemma SaveKeeps(r0: Roster, s: System, t: TaskId, id: InviteId, lifetime: nat, checks: bool, saves: bool)
    requires Inv(r0, s) && t in s.tasks && s.tasks[t].phase.Loaded?
    ensures Inv(r0, Save(s, t, id, lifetime, checks, saves))
  {
    match s.tasks[t].phase.op
    case Expiring => SaveExpiryKeeps(r0, s, t, saves);
    case Creating =>
      if s.tasks[t].kind.Join? {
        SaveCreationKeeps(r0, s, t, id, lifetime, checks, saves);
      }
    case Confirming =>
      if s.tasks[t].kind.Confirmer? {
        SaveConfirmationKeeps(r0, s, t, saves);
      }
    case Undoing(undone) => SaveUndoKeeps(r0, s, t, undone, saves);
  }

  lemma ReloadKeeps(r0: Roster, s: System, t: TaskId, accepted: bool)
    requires Inv(r0, s) && t in s.tasks
    ensures Inv(r0, Reloaded(s, t, accepted))
  {
    var Task(kind, phase) := s.tasks[t];
    match phase
    case ExpiryReload =>
      if accepted {
        AfterExpiryKeeps(r0, s, t);
      } else {
        ReleaseKeeps(r0, s, t);
      }
    case CreationReload(id, expires) =>
      assert Undecided(s, t, id);
      if !accepted {
        ContinueKeeps(r0, s, t, Ready(Undoing(id)));
      } else if kind.Join? {
        SendKeepsCore(r0, s, Ticket(id, kind.member, expires));
        ReleaseKeeps(r0, Send(s, Ticket(id, kind.member, expires)), t);
      } else {
        ReleaseKeeps(r0, s, t);
      }
    case UndoReload => ReleaseKeeps(r0, s, t);
    case _ =>
  }

  /** Changes of clock and of waiting tasks leave every claim alone. */
  lemma QuietKeeps(r0: Roster, s: System, next: System)
    requires Inv(r0, s) && Exclusive(next) && SnapshotsCurrent(next) && ConfirmersAsked(next)
    requires next == s.(clock := next.clock, tasks := next.tasks, committer := next.committer)
    requires forall t :: t in next.tasks ==>
               (t in s.tasks && next.tasks[t] == s.tasks[t]) || next.tasks[t].phase.Waiting?
               || (next.tasks[t].phase.Ready? && !next.tasks[t].phase.op.Undoing?)
               || (t in s.tasks && s.tasks[t].phase.Ready? && next.tasks[t].phase.Loaded?
                   && next.tasks[t].phase.op == s.tasks[t].phase.op)
    ensures Inv(r0, next)
  {
    forall t, id | t in next.tasks && Undecided(next, t, id)
      ensures !Issued(next.network, id) && PendingRecord(next.records, id)
              && (next.tasks[t].phase.CreationReload? ==> Rollback(id) !in next.log)
              && (next.tasks[t].phase.CreationReload? && next.tasks[t].kind.Join? ==>
                  Recorded(next.records, id, next.tasks[t].kind.member))
    {
      assert Undecided(s, t, id);
    }
    assert forall h :: h in next.members ==> MemberTrue(s, next.members[h]);
    assert forall message :: message in next.network ==> MessageTrue(s, message);
  }

  lemma OperatorKeeps(r0: Roster, s: System, entry: Transaction)
    requires Inv(r0, s) && s.committer.None? && FreshId(s.records, entry)
    requires entry.Creation? || (entry.OperatorRevocation? && HasInvite(s.records.invites, entry.id))
    ensures Inv(r0, Saved(s, Commit(s.records, entry), entry))
  {
    SavedKeepsCore(r0, s, entry);
  }

  // ---------------------------------------------------------- member actions

  lemma SenderKeeps(r0: Roster, s: System, a: Action)
    requires Inv(r0, s) && (a.SendConfirm? || a.SendEnroll?) && a.host in s.members
    ensures Inv(r0, MemberActs(s, a))
  {
    var m, next := s.members[a.host], MemberActs(s, a);
    assert MemberTrue(s, m);
    if next != s {
      var message := if a.SendConfirm? then ConfirmRequest(m.local.invite, m.local.member)
                     else EnrollRequest(m.identity.value);
      SendKeepsInv(r0, s, message);
      UpdateKeeps(r0, Send(s, message), a.host, next.members[a.host]);
    }
  }

  lemma MemberKeeps(r0: Roster, s: System, a: Action)
    requires Inv(r0, s) && ByMember(a) && a.host in s.members
    ensures Inv(r0, MemberActs(s, a))
  {
    if a.SendConfirm? || a.SendEnroll? {
      SenderKeeps(r0, s, a);
    } else {
      var next := MemberActs(s, a);
      assert MemberTrue(s, s.members[a.host]);
      assert MemberTrue(s, next.members[a.host]);
      if next != s {
        UpdateKeeps(r0, s, a.host, next.members[a.host]);
      }
    }
  }

  lemma SendKeepsInv(r0: Roster, s: System, message: Message)
    requires Inv(r0, s) && !message.Ticket? && MessageTrue(Send(s, message), message)
    ensures Inv(r0, Send(s, message))
  {
    SendKeepsCore(r0, s, message);
    var next := Send(s, message);
    forall t, id | t in next.tasks && Undecided(next, t, id)
      ensures !Issued(next.network, id)
    {
      assert Undecided(s, t, id);
    }
    forall t, id | t in next.tasks && Undecided(next, t, id)
      ensures PendingRecord(next.records, id)
              && (next.tasks[t].phase.CreationReload? ==> Rollback(id) !in next.log)
              && (next.tasks[t].phase.CreationReload? && next.tasks[t].kind.Join? ==>
                  Recorded(next.records, id, next.tasks[t].kind.member))
    {
      assert Undecided(s, t, id);
    }
  }

  lemma UpdateKeeps(r0: Roster, s: System, h: Host, m: Member)
    requires Inv(r0, s) && MemberTrue(s, m)
    ensures Inv(r0, Update(s, h, m))
  {
    var next := Update(s, h, m);
    forall t, id | t in next.tasks && Undecided(next, t, id)
      ensures !Issued(next.network, id) && PendingRecord(next.records, id)
              && (next.tasks[t].phase.CreationReload? ==> Rollback(id) !in next.log)
              && (next.tasks[t].phase.CreationReload? && next.tasks[t].kind.Join? ==>
                  Recorded(next.records, id, next.tasks[t].kind.member))
    {
      assert Undecided(s, t, id);
    }
    forall k | k in next.members
      ensures MemberTrue(next, next.members[k])
    {
      assert k == h || MemberTrue(s, s.members[k]);
    }
    assert forall message :: message in next.network ==> MessageTrue(s, message);
  }

  // -------------------------------------------------------------------- runs

  lemma TaskKeeps(r0: Roster, s: System, a: Action)
    requires Inv(r0, s)
    requires a.Tick? || a.AcceptJoin? || a.AcceptConfirm? || a.StartSweep? || a.Acquire? || a.Load? || a.RestartDaemon?
    ensures Inv(r0, Act(s, a))
  {
    if a.Load? && a.task in s.tasks && s.tasks[a.task].phase.Ready? && !a.readable {
      ReleaseKeeps(r0, s, a.task);
    } else {
      if a.AcceptConfirm? && ConfirmRequest(a.id, a.member) in s.network {
        assert MessageTrue(s, ConfirmRequest(a.id, a.member));
      }
      QuietKeeps(r0, s, Act(s, a));
    }
  }

  /** The transaction of an operator's command. */
  function OperatorEntry(s: System, a: Action): Transaction
    requires a.OperatorCreates? || a.OperatorRevokes?
  {
    if a.OperatorCreates? then Creation(a.id, a.member, s.clock, a.lifetime, false, a.checks)
    else OperatorRevocation(a.id)
  }

  /** An operator's command does nothing, or saves its transaction while the committer is free. */
  lemma OperatorMoves(s: System, a: Action)
    requires a.OperatorCreates? || a.OperatorRevokes?
    ensures var entry := OperatorEntry(s, a);
            || Act(s, a) == s
            || (&& Act(s, a) == Saved(s, Commit(s.records, entry), entry)
                && s.committer.None? && FreshId(s.records, entry)
                && (entry.Creation? || (entry.OperatorRevocation? && HasInvite(s.records.invites, entry.id))))
  {
  }

  lemma OperatorActKeeps(r0: Roster, s: System, a: Action)
    requires Inv(r0, s) && (a.OperatorCreates? || a.OperatorRevokes?)
    ensures Inv(r0, Act(s, a))
  {
    OperatorMoves(s, a);
    if Act(s, a) != s {
      OperatorKeeps(r0, s, OperatorEntry(s, a));
    }
  }

  lemma ActKeeps(r0: Roster, s: System, a: Action)
    requires Inv(r0, s)
    ensures Inv(r0, Act(s, a))
  {
    if ByMember(a) {
      if a.host in s.members {
        MemberKeeps(r0, s, a);
      }
    } else if a.SaveSection? {
      if a.task in s.tasks && s.tasks[a.task].phase.Loaded? {
        SaveKeeps(r0, s, a.task, a.id, a.lifetime, a.checks, a.saves);
      }
    } else if a.AnswerReload? {
      if a.task in s.tasks {
        ReloadKeeps(r0, s, a.task, a.accepted);
      }
    } else if a.OperatorCreates? || a.OperatorRevokes? {
      OperatorActKeeps(r0, s, a);
    } else {
      TaskKeeps(r0, s, a);
    }
  }

  lemma StartsTrue(r0: Roster, clock: nat, hosts: map<Host, Option<EndpointId>>)
    requires Admissible(r0)
    ensures Inv(r0, Start(r0, clock, hosts))
  {
  }

  lemma {:induction false} RunKeeps(r0: Roster, s: System, actions: seq<Action>)
    requires Inv(r0, s)
    ensures Inv(r0, Run(s, actions))
    decreases |actions|
  {
    if actions != [] {
      ActKeeps(r0, s, actions[0]);
      RunKeeps(r0, Act(s, actions[0]), actions[1..]);
    }
  }

  // -------------------------------------------------------------- agreement

  /** The authority's side of a completed enrollment. */
  ghost predicate Admits(s: System, id: InviteId, member: EndpointId) {
    var k := Find(s.records.invites, id);
    && k < |s.records.invites|
    && s.records.invites[k].member == member
    && !s.records.invites[k].pending
    && (s.records.invites[k].revoked <==> OperatorRevocation(id) in s.log)
    && (!s.records.invites[k].revoked ==> PeerCount(s.records.peers, member) == 1)
  }

  lemma AcceptedIsAdmitted(r0: Roster, s: System, id: InviteId, member: EndpointId)
    requires Inv(r0, s) && ConfirmAccepted(id, member) in s.network
    ensures Admits(s, id, member)
  {
    assert MessageTrue(s, ConfirmAccepted(id, member));
    var invites := s.records.invites;
    var i :| 0 <= i < |invites| && invites[i].id == id && invites[i].member == member && !invites[i].pending;
    FindUnique(invites, i);
    PeerOnce(s.records.peers, member);
    if OperatorRevocation(id) in s.log {
      var j :| 0 <= j < |invites| && invites[j].id == id && invites[j].revoked;
      assert i == j;
    } else {
      var j :| 0 <= j < |invites| && invites[j].id == id && !invites[j].revoked;
      assert i == j;
    }
  }

  /** The member's side of a completed enrollment. */
  predicate Completed(s: System, h: Host) {
    h in s.members && s.members[h].local.Joined? && !s.members[h].local.pending
  }

  /**
   Agreement: in every run, a member that has cleared its pending confirmation is
   confirmed at the authority; its invite is revoked if and only if the operator
   revoked it, and otherwise its endpoint is a peer exactly once.
   */
  lemma EnrollmentAgreement(r0: Roster, clock: nat, hosts: map<Host, Option<EndpointId>>,
                            actions: seq<Action>, h: Host)
    requires Admissible(r0)
    ensures var s := Run(Start(r0, clock, hosts), actions);
            Completed(s, h) ==> Admits(s, s.members[h].local.invite, s.members[h].local.member)
  {
    StartsTrue(r0, clock, hosts);
    RunKeeps(r0, Start(r0, clock, hosts), actions);
    var s := Run(Start(r0, clock, hosts), actions);
    if Completed(s, h) {
      assert MemberTrue(s, s.members[h]);
      AcceptedIsAdmitted(r0, s, s.members[h].local.invite, s.members[h].local.member);
    }
  }

  /**
   Serialisation: however the sections of concurrent tasks interleave, the records
   are the logged transactions applied one after another; every ticket handed out
   has its record; and a rolled-back invite was never handed out and never confirmed.
   */
  lemma SectionsSerialise(r0: Roster, clock: nat, hosts: map<Host, Option<EndpointId>>, actions: seq<Action>)
    requires Admissible(r0)
    ensures var s := Run(Start(r0, clock, hosts), actions);
            && s.records == Replay(r0, s.log)
            && (forall message :: message in s.network && message.Ticket? ==>
                Recorded(s.records, message.id, message.member))
            && (forall id, member :: Rollback(id) in s.log ==>
                  && !Issued(s.network, id) && !ConfirmedRecord(s.records, id, member)
                  && ConfirmAccepted(id, member) !in s.network)
  {
    StartsTrue(r0, clock, hosts);
    RunKeeps(r0, Start(r0, clock, hosts), actions);
    var s := Run(Start(r0, clock, hosts), actions);
    assert forall message :: message in s.network ==> MessageTrue(s, message);
    forall id, member | Rollback(id) in s.log
      ensures !ConfirmedRecord(s.records, id, member) && ConfirmAccepted(id, member) !in s.network
    {
      PendingIsNotConfirmed(s.records, id, member);
      assert ConfirmAccepted(id, member) in s.network ==> MessageTrue(s, ConfirmAccepted(id, member));
    }
  }

  // ------------------------------------------- when a confirmation completes

  /** A committed member whose confirmation is outstanding. */
  predicate Outstanding(s: System, h: Host) {
    && h in s.members && s.members[h].local.Joined? && s.members[h].local.pending
    && s.members[h].identity == Some(s.members[h].local.member)
  }

  function Confirmable(s: System, h: Host): bool
    requires Outstanding(s, h)
  {
    Confirm(s.records, s.members[h].local.invite, s.members[h].local.member, s.clock).Ok?
  }

  function ConfirmationRun(h: Host, t: TaskId, id: InviteId, member: EndpointId): seq<Action> {
    [SendConfirm(h), AcceptConfirm(t, id, member), Acquire(t), Load(t, true), SaveSection(t, id, 0, false, true),
     ReceiveAccepted(h)]
  }

  /** The authority's half of a confirmation, from a request to its acceptance. */
  lemma RequestIsAccepted(s: System, t: TaskId, id: InviteId, member: EndpointId)
    requires s.committer.None? && t !in s.tasks && ConfirmRequest(id, member) in s.network
    requires Confirm(s.records, id, member, s.clock).Ok?
    ensures var s4 := Act(Act(Act(Act(s, AcceptConfirm(t, id, member)), Acquire(t)), Load(t, true)),
                          SaveSection(t, id, 0, false, true));
            s4.members == s.members && ConfirmAccepted(id, member) in s4.network
  {
    var s1 := Act(s, AcceptConfirm(t, id, member));
    assert s1.tasks[t] == Task(Confirmer(id, member), Waiting);
    var s2 := Act(s1, Acquire(t));
    assert s2.tasks[t] == Task(Confirmer(id, member), Ready(Confirming));
    var s3 := Act(s2, Load(t, true));
    assert HasLoaded(s3, t, Confirming) && s3.tasks[t].phase.snapshot == s.records && s3.clock == s.clock;
    assert Act(s3, SaveSection(t, id, 0, false, true)) == SaveConfirmation(s3, t, true);
  }

  lemma RequestIsSent(s: System, h: Host)
    requires Outstanding(s, h)
    ensures var s1 := Act(s, SendConfirm(h));
            && s1 == s.(members := s1.members, network := s1.network)
            && ConfirmRequest(s.members[h].local.invite, s.members[h].local.member) in s1.network
            && h in s1.members
            && s1.members[h] == s.members[h].(activity := AwaitingAcceptance(s.members[h].local.invite))
  {
  }

  lemma AcceptanceClears(s: System, h: Host)
    requires Outstanding(s, h) && s.members[h].activity == AwaitingAcceptance(s.members[h].local.invite)
    requires ConfirmAccepted(s.members[h].local.invite, s.members[h].local.member) in s.network
    ensures Completed(Act(s, ReceiveAccepted(h)), h)
  {
  }

  /** With the committer free, an outstanding confirmation the authority would accept can complete. */
  lemma OutstandingCanComplete(s: System, h: Host, t: TaskId)
    requires Outstanding(s, h) && Confirmable(s, h) && s.committer.None? && t !in s.tasks
    ensures Completed(Run(s, ConfirmationRun(h, t, s.members[h].local.invite, s.members[h].local.member)), h)
  {
    var Joined(member, id, _) := s.members[h].local;
    RequestIsSent(s, h);
    var s1 := Act(s, SendConfirm(h));
    RequestIsAccepted(s1, t, id, member);
    var s5 := Act(Act(Act(Act(s1, AcceptConfirm(t, id, member)), Acquire(t)), Load(t, true)),
                  SaveSection(t, id, 0, false, true));
    AcceptanceClears(s5, h);
    RunSix(s, ConfirmationRun(h, t, id, member));
  }

  lemma RunSix(s: System, actions: seq<Action>)
    requires |actions| == 6
    ensures Run(s, actions) ==
              Act(Act(Act(Act(Act(Act(s, actions[0]), actions[1]), actions[2]), actions[3]), actions[4]), actions[5])
  {
    assert actions[1..][1..] == actions[2..] && actions[2..][1..] == actions[3..] && actions[3..][1..] == actions[4..];
    assert actions[4..][1..] == actions[5..] && actions[5..][1..] == [];
    RunStep(s, actions);
    var s1 := Act(s, actions[0]);
    RunStep(s1, actions[1..]);
    var s2 := Act(s1, actions[1]);
    RunStep(s2, actions[2..]);
    var s3 := Act(s2, actions[2]);
    RunStep(s3, actions[3..]);
    var s4 := Act(s3, actions[3]);
    RunStep(s4, actions[4..]);
    RunStep(Act(s4, actions[4]), actions[5..]);
  }

  lemma RunStep(s: System, actions: seq<Action>)
    requires actions != []
    ensures Run(s, actions) == Run(Act(s, actions[0]), actions[1..])
  {
  }

  /** A record that can be confirmed no more: revoked, or still pending after its time. */
  ghost predicate RefusedRecord(r: Roster, id: InviteId, now: nat) {
    exists i :: 0 <= i < |r.invites| && r.invites[i].id == id &&
                (r.invites[i].revoked || (r.invites[i].pending && r.invites[i].expires < now))
  }

  /** A member whose invite the authority would refuse, and for which no acceptance was sent. */
  ghost predicate Stranded(s: System, h: Host) {
    && Outstanding(s, h)
    && RefusedRecord(s.records, s.members[h].local.invite, s.clock)
    && ConfirmAccepted(s.members[h].local.invite, s.members[h].local.member) !in s.network
  }

  lemma RefusedIsRefused(r: Roster, id: InviteId, member: EndpointId, now: nat)
    requires DistinctIds(r.invites) && RefusedRecord(r, id, now)
    ensures Confirm(r, id, member, now).Err?
  {
    var i :| 0 <= i < |r.invites| && r.invites[i].id == id &&
             (r.invites[i].revoked || (r.invites[i].pending && r.invites[i].expires < now));
    FindUnique(r.invites, i);
  }

  /** For an invite's own member there is no other reason to refuse. */
  lemma RefusedExactly(r: Roster, id: InviteId, member: EndpointId, now: nat)
    requires DistinctIds(r.invites) && Recorded(r, id, member)
    ensures Confirm(r, id, member, now).Err? <==> RefusedRecord(r, id, now)
  {
    var i :| 0 <= i < |r.invites| && r.invites[i].id == id && r.invites[i].member == member;
    FindUnique(r.invites, i);
    if RefusedRecord(r, id, now) {
      RefusedIsRefused(r, id, member, now);
    }
  }

  /** No transaction makes a refused record confirmable, now or later. */
  lemma RefusalIsKept(r: Roster, t: Transaction, id: InviteId, now: nat)
    requires DistinctIds(r.invites) && RefusedRecord(r, id, now) && (t.Confirmation? ==> t.now >= now)
    ensures RefusedRecord(Commit(r, t), id, now)
  {
    var i :| 0 <= i < |r.invites| && r.invites[i].id == id &&
             (r.invites[i].revoked || (r.invites[i].pending && r.invites[i].expires < now));
    RecordKept(r, t, i);
    if t.Confirmation? && t.id == id {
      assert RefusedRecord(r, id, t.now);
      RefusedIsRefused(r, id, t.member, t.now);
    }
  }

  /** Clock, task and reload actions touch no record, no member and no acceptance. */
  lemma QuietFrame(s: System, a: Action)
    requires !ByMember(a) && !a.SaveSection? && !a.OperatorCreates? && !a.OperatorRevokes?
    ensures Act(s, a).records == s.records && Act(s, a).members == s.members && s.clock <= Act(s, a).clock
    ensures forall message :: message in Act(s, a).network && message.ConfirmAccepted? ==> message in s.network
  {
  }

  lemma RefusalLasts(r: Roster, id: InviteId, now: nat, later: nat)
    requires RefusedRecord(r, id, now) && now <= later
    ensures RefusedRecord(r, id, later)
  {
  }

  /** A member's action changes that member and what it sends, and accepts no confirmation. */
  lemma MemberTouches(s: System, a: Action)
    requires ByMember(a) && a.host in s.members
    ensures var next := MemberActs(s, a);
            && next == s.(members := next.members, network := next.network)
            && (forall k :: k in s.members ==> k in next.members)
            && (forall k :: k in s.members && k != a.host ==> next.members[k] == s.members[k])
            && (forall message :: message in next.network && message.ConfirmAccepted? ==> message in s.network)
  {
  }

  lemma StrandedAlone(s: System, a: Action)
    requires ByMember(a) && Stranded(s, a.host)
    ensures var before, after := s.members[a.host], MemberActs(s, a).members[a.host];
            after.local == before.local && after.identity == before.identity
  {
  }

  lemma MemberFrame(s: System, a: Action, h: Host)
    requires ByMember(a) && Stranded(s, h)
    ensures Act(s, a).records == s.records
    ensures Stranded(Act(s, a), h) && Act(s, a).members[h].local == s.members[h].local
  {
    if a.host in s.members {
      MemberTouches(s, a);
      if a.host == h {
        StrandedAlone(s, a);
      }
    }
  }

  lemma OperatorFrame(r0: Roster, s: System, a: Action, h: Host)
    requires Inv(r0, s) && (a.OperatorCreates? || a.OperatorRevokes?) && Stranded(s, h)
    ensures Stranded(Act(s, a), h) && Act(s, a).members[h].local == s.members[h].local
  {
    OperatorMoves(s, a);
    RefusalIsKept(s.records, OperatorEntry(s, a), s.members[h].local.invite, s.clock);
  }

  /** No action helps a stranded member. */
  lemma StrandedStays(r0: Roster, s: System, a: Action, h: Host)
    requires Inv(r0, s) && Stranded(s, h)
    ensures Stranded(Act(s, a), h) && Act(s, a).members[h].local == s.members[h].local
  {
    if ByMember(a) {
      MemberFrame(s, a, h);
    } else if a.SaveSection? {
      if a.task in s.tasks && s.tasks[a.task].phase.Loaded? {
        StrandedThroughSave(r0, s, a, h);
      }
    } else if a.OperatorCreates? || a.OperatorRevokes? {
      OperatorFrame(r0, s, a, h);
    } else {
      QuietFrame(s, a);
      RefusalLasts(s.records, s.members[h].local.invite, s.clock, Act(s, a).clock);
    }
  }

  ghost predicate Saving(r0: Roster, s: System, a: Action, h: Host) {
    Inv(r0, s) && Stranded(s, h) && a.SaveSection? && a.task in s.tasks && s.tasks[a.task].phase.Loaded?
  }

  lemma StrandedThroughCreation(r0: Roster, s: System, a: Action, h: Host)
    requires Saving(r0, s, a, h) && s.tasks[a.task].phase.op.Creating?
    ensures Stranded(Act(s, a), h) && Act(s, a).members[h].local == s.members[h].local
  {
    var id, t := s.members[h].local.invite, a.task;
    if s.tasks[t].kind.Join? {
      var entry := Creation(a.id, s.tasks[t].kind.member, s.clock, a.lifetime, true, a.checks);
      SaveCreationCases(s, t, entry, a.saves);
      RefusalIsKept(s.records, entry, id, s.clock);
    }
  }

  lemma StrandedThroughConfirmation(r0: Roster, s: System, a: Action, h: Host)
    requires Saving(r0, s, a, h) && s.tasks[a.task].phase.op.Confirming?
    ensures Stranded(Act(s, a), h) && Act(s, a).members[h].local == s.members[h].local
  {
    var id, t := s.members[h].local.invite, a.task;
    if s.tasks[t].kind.Confirmer? {
      var Confirmer(other, member) := s.tasks[t].kind;
      RefusalIsKept(s.records, Confirmation(other, member, s.clock), id, s.clock);
      if other == id {
        RefusedIsRefused(s.records, id, member, s.clock);
      }
    }
  }

  lemma StrandedThroughRemoval(r0: Roster, s: System, a: Action, h: Host)
    requires Saving(r0, s, a, h) && (s.tasks[a.task].phase.op.Expiring? || s.tasks[a.task].phase.op.Undoing?)
    ensures Stranded(Act(s, a), h) && Act(s, a).members[h].local == s.members[h].local
  {
    var id, phase := s.members[h].local.invite, s.tasks[a.task].phase;
    if phase.op.Expiring? {
      RefusalIsKept(s.records, Sweep(phase.now), id, s.clock);
    } else {
      var Undoing(undone) := phase.op;
      RefusalIsKept(s.records, Rollback(undone), id, s.clock);
    }
  }

  lemma StrandedThroughSave(r0: Roster, s: System, a: Action, h: Host)
    requires Saving(r0, s, a, h)
    ensures Stranded(Act(s, a), h) && Act(s, a).members[h].local == s.members[h].local
  {
    match s.tasks[a.task].phase.op
    case Expiring => StrandedThroughRemoval(r0, s, a, h);
    case Creating => StrandedThroughCreation(r0, s, a, h);
    case Confirming => StrandedThroughConfirmation(r0, s, a, h);
    case Undoing(_) => StrandedThroughRemoval(r0, s, a, h);
  }

  /** A stranded member keeps its pending mark in every continuation. */
  lemma {:induction false} StrandedNeverCompletes(r0: Roster, s: System, actions: seq<Action>, h: Host)
    requires Inv(r0, s) && Stranded(s, h)
    ensures !Completed(Run(s, actions), h)
    decreases |actions|
  {
    if actions != [] {
      ActKeeps(r0, s, actions[0]);
      StrandedStays(r0, s, actions[0], h);
      StrandedNeverCompletes(r0, Act(s, actions[0]), actions[1..], h);
    }
  }

  // ------------------------------------------------------ exactly when it can

  lemma AcceptedCanComplete(s: System, h: Host)
    requires Outstanding(s, h) && ConfirmAccepted(s.members[h].local.invite, s.members[h].local.member) in s.network
    ensures exists actions :: Completed(Run(s, actions), h)
  {
    RequestIsSent(s, h);
    var s1 := Act(s, SendConfirm(h));
    assert s.network <= s1.network;
    AcceptanceClears(s1, h);
    var actions := [SendConfirm(h), ReceiveAccepted(h)];
    assert actions[1..] == [ReceiveAccepted(h)] && [ReceiveAccepted(h)][1..] == [];
    RunStep(s, actions);
    RunStep(s1, actions[1..]);
    assert Completed(Run(s, actions), h);
  }

  /** After a restart of the daemon the committer is free, so what the authority would accept can complete. */
  lemma ConfirmableCanComplete(s: System, h: Host)
    requires Outstanding(s, h) && Confirmable(s, h)
    ensures exists actions :: Completed(Run(s, actions), h)
  {
    var Joined(member, id, _) := s.members[h].local;
    var t := Act(s, RestartDaemon);
    OutstandingCanComplete(t, h, 0);
    var rest := ConfirmationRun(h, 0, id, member);
    var actions := [RestartDaemon] + rest;
    assert actions[1..] == rest;
    RunStep(s, actions);
    assert Completed(Run(s, actions), h);
  }

  /**
   Exactly: from every state the invariant allows, some run completes an outstanding
   confirmation if and only if its acceptance was sent or the authority would accept it now.
   */
  lemma CompletesExactly(r0: Roster, s: System, h: Host)
    requires Inv(r0, s) && Outstanding(s, h)
    ensures (exists actions :: Completed(Run(s, actions), h)) <==>
              ConfirmAccepted(s.members[h].local.invite, s.members[h].local.member) in s.network || Confirmable(s, h)
  {
    var Joined(member, id, _) := s.members[h].local;
    if ConfirmAccepted(id, member) in s.network {
      AcceptedCanComplete(s, h);
    } else if Confirmable(s, h) {
      ConfirmableCanComplete(s, h);
    } else {
      OutstandingIsRecorded(r0, s, h);
      RefusedExactly(s.records, id, member, s.clock);
      forall actions ensures !Completed(Run(s, actions), h) {
        StrandedNeverCompletes(r0, s, actions, h);
      }
    }
  }

  lemma OutstandingIsRecorded(r0: Roster, s: System, h: Host)
    requires Inv(r0, s) && Outstanding(s, h)
    ensures Recorded(s.records, s.members[h].local.invite, s.members[h].local.member)
  {
    assert MemberTrue(s, s.members[h]);
    var Joined(member, id, _) := s.members[h].local;
    var message :| message in s.network && message.Ticket? && message.id == id && message.member == member;
    assert MessageTrue(s, message);
  }
}
