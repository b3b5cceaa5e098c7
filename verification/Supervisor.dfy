/**
 The daemon supervisor: it starts data-plane generations, reloads with rollback,
 recovers from crashes and reacts to expiring route leases. Each `await` of the
 nested loop is answered by the next event of a trace; an event the loop is not
 waiting for is passed over.
 */
module Supervisor {
  import opened Outcomes
  import opened Listeners
  import opened Reloads

  /** Everything the environment decides while one reload command is served. */
  datatype Event =
    | RuntimeReady
    | RuntimeFails(restore: Binds)               // during startup, with the binds of a rollback
    | RuntimeStops                               // while active
    | ShutdownSignal
    | Reload(client: Client, loaded: Option<Config>, offer: Binds, stopped: bool, withdraw: Binds)
    | StopCommand
    | CommandsClosed
    | LeaseTimer(expired: bool, stopped: bool, loaded: Option<Config>, offer: Binds)

  datatype Reply = Reply(client: Client, generation: Option<nat>)   // None: rejected or failed

  /** What a turn of the active loop sees: three configurations, and the commands without a reply. */
  datatype Snapshot = Snapshot(running: Config, published: Config, listening: Config, unanswered: int)

  predicate Agree(s: Snapshot) {
    s.running == s.published == s.listening && s.unanswered == 0
  }

  ghost predicate AllAgree(snapshots: seq<Snapshot>) {
    forall i :: 0 <= i < |snapshots| ==> Agree(snapshots[i])
  }

  /** Acknowledged generations grow strictly from one reload to the next. */
  ghost predicate AcksIncrease(replies: seq<Reply>) {
    forall i, j :: 0 <= i < j < |replies| && replies[i].generation.Some? && replies[j].generation.Some? ==>
      replies[i].generation.value < replies[j].generation.value
  }

  ghost predicate AcksBelow(replies: seq<Reply>, bound: nat) {
    forall i :: 0 <= i < |replies| && replies[i].generation.Some? ==> replies[i].generation.value <= bound
  }

  ghost predicate NonDecreasing(s: seq<nat>) {
    forall i, j :: 0 <= i < j < |s| ==> s[i] <= s[j]
  }

  ghost predicate Below(s: seq<nat>, bound: nat) {
    forall i :: 0 <= i < |s| ==> s[i] <= bound
  }

  /** Every one of these commands has its one reply, in order. */
  ghost predicate AllAnswered(replies: seq<Reply>, dequeued: seq<Client>) {
    && |replies| == |dequeued|
    && forall i :: 0 <= i < |replies| ==> replies[i].client == dequeued[i]
  }

  /** The commands that are owed a reply: all taken off the queue but the pending one. */
  function Settled(dequeued: seq<Client>, pending: Option<Pending>): seq<Client> {
    if pending.Some? && dequeued != [] then dequeued[..|dequeued| - 1] else dequeued
  }

  /**
   Reply discipline: each command but the pending one has exactly one reply, in
   order; acknowledged generations increase; ready events never go back.
   */
  ghost predicate Disciplined(replies: seq<Reply>, dequeued: seq<Client>, pending: Option<Pending>,
                              generation: nat, ready: seq<nat>)
  {
    && AllAnswered(replies, Settled(dequeued, pending))
    && (pending.Some? ==> dequeued != [] && dequeued[|dequeued| - 1] == pending.value.client)
    && AcksIncrease(replies) && AcksBelow(replies, generation)
    && NonDecreasing(ready) && Below(ready, generation)
  }

  lemma TakeCommand(replies: seq<Reply>, dequeued: seq<Client>, generation: nat, ready: seq<nat>, pending: Pending)
    requires Disciplined(replies, dequeued, None, generation, ready)
    ensures Disciplined(replies, dequeued + [pending.client], Some(pending), generation, ready)
  {
    assert (dequeued + [pending.client])[..|dequeued|] == dequeued;
  }

  lemma AnswerPending(replies: seq<Reply>, dequeued: seq<Client>, generation: nat, ready: seq<nat>, pending: Pending,
                      acknowledge: bool)
    requires Disciplined(replies, dequeued, Some(pending), generation, ready)
    ensures var g := if acknowledge then generation + 1 else generation;
            var reply := Reply(pending.client, if acknowledge then Some(g) else None);
            Disciplined(replies + [reply], dequeued, None, g, ready)
  {
    assert dequeued == dequeued[..|dequeued| - 1] + [pending.client];
  }

  lemma Advance(replies: seq<Reply>, dequeued: seq<Client>, pending: Option<Pending>, generation: nat, ready: seq<nat>)
    requires Disciplined(replies, dequeued, pending, generation, ready)
    ensures Disciplined(replies, dequeued, pending, generation + 1, ready)
    ensures Disciplined(replies, dequeued, pending, generation, ready + [generation])
  {
  }

  function Acknowledgement(pending: Option<Pending>, generation: nat): seq<Reply> {
    if pending.Some? then [Reply(pending.value.client, Some(generation))] else []
  }

  lemma ReadyKeeps(replies: seq<Reply>, dequeued: seq<Client>, pending: Option<Pending>, generation: nat,
                   ready: seq<nat>)
    requires Disciplined(replies, dequeued, pending, generation, ready)
    ensures var g := if pending.Some? then generation + 1 else generation;
            Disciplined(replies + Acknowledgement(pending, g), dequeued, None, g, ready + [g])
  {
    if pending.Some? {
      AnswerPending(replies, dequeued, generation, ready, pending.value, true);
      Advance(replies + Acknowledgement(pending, generation + 1), dequeued, None, generation + 1, ready);
    } else {
      assert replies + [] == replies;
      Advance(replies, dequeued, None, generation, ready);
    }
  }

  // ------------------------------------------------------------- on values

  /** The supervisor with its listeners, as a value. */
  datatype State = State(current: Config, generation: nat, pending: Option<Pending>, recovering: bool,
                         published: Config, listening: Config, listeners: Listeners,
                         replies: seq<Reply>, ready: seq<nat>, finished: bool)

  predicate Accepted(s: State, next: Config, binds: Binds) {
    Accepts(s.listeners, ListenerAddresses(next), binds)
  }

  /** The listeners are asked to follow a configuration. */
  function Offered(s: State, next: Config, binds: Binds): State {
    s.(listeners := Reconciled(s.listeners, ListenerAddresses(next), binds),
       listening := if Accepted(s, next, binds) then next else s.listening)
  }

  function Replied(s: State, client: Client): State {
    s.(replies := s.replies + [Reply(client, None)])
  }

  function OnFailed(s: State, restore: Binds): State {
    if s.pending.None? then s.(finished := !s.recovering)
    else
      var Pending(previous, client) := s.pending.value;
      var back := Replied(Offered(s, previous, restore), client).(pending := None);
      if Accepted(s, previous, restore) then back.(current := previous) else back.(finished := true)
  }

  function OnReady(s: State): State {
    var g := if s.pending.Some? then s.generation + 1 else s.generation;
    s.(recovering := false, published := s.current, generation := g, pending := None,
       replies := s.replies + Acknowledgement(s.pending, g), ready := s.ready + [g])
  }

  function OnReload(s: State, e: Event): State
    requires e.Reload?
  {
    if e.loaded.None? then Replied(s, e.client)
    else
      var offered := Offered(s, e.loaded.value, e.offer);
      if !Accepted(s, e.loaded.value, e.offer) then Replied(offered, e.client)
      else if !e.stopped then Replied(Offered(offered, s.current, e.withdraw), e.client).(finished := true)
      else offered.(pending := Some(Pending(s.current, e.client)), current := e.loaded.value)
  }

  function OnLease(s: State, e: Event): State
    requires e.LeaseTimer?
  {
    if !e.stopped || e.loaded.None? then s.(finished := true)
    else
      var offered := Offered(s, e.loaded.value, e.offer);
      if !Accepted(s, e.loaded.value, e.offer) then offered.(finished := true)
      else offered.(current := e.loaded.value, generation := s.generation + 1)
  }

  function OnTurn(s: State, e: Event, leaseSpent: bool): State {
    match e
    case RuntimeStops => s.(generation := s.generation + 1, recovering := true)
    case Reload(_, _, _, _, _) => OnReload(s, e)
    case ShutdownSignal => s.(finished := true)
    case StopCommand => s.(finished := true)
    case CommandsClosed => s.(finished := true)
    case LeaseTimer(expired, _, _, _) =>
      if leaseSpent then s.(finished := true) else if expired then OnLease(s, e) else s
    case _ => s
  }

  /** Whether the active loop goes round again. */
  predicate StaysActive(after: State, e: Event, leaseSpent: bool) {
    match e
    case RuntimeStops => false
    case Reload(_, _, _, _, _) => !after.finished && after.pending.None?
    case LeaseTimer(expired, _, _, _) => !leaseSpent && !expired
    case _ => !after.finished
  }

  datatype Mode = Starting | Active(leaseSpent: bool)

  function NextMode(after: State, e: Event, mode: Mode): Mode {
    match mode
    case Starting => if e.RuntimeReady? then Active(false) else Starting
    case Active(spent) => if StaysActive(after, e, spent) then Active(spent || e.LeaseTimer?) else Starting
  }

  function OnEvent(s: State, e: Event, mode: Mode): State {
    match mode
    case Active(spent) => OnTurn(s, e, spent)
    case Starting =>
      match e
      case RuntimeReady => OnReady(s)
      case RuntimeFails(restore) => OnFailed(s, restore)
      case ShutdownSignal => s.(finished := true)
      case _ => s
  }

  /**
   The supervisor with its history: the reload commands it took off the queue and what
   it saw at the start of every turn of the active loop.
   */
  datatype History = History(state: State, dequeued: seq<Client>, observed: seq<Snapshot>)

  function SnapshotOf(r: History): Snapshot {
    Snapshot(r.state.current, r.state.published, r.state.listening, |r.dequeued| - |r.state.replies|)
  }

  function Next(r: History, e: Event, mode: Mode): History {
    History(OnEvent(r.state, e, mode),
            if mode.Active? && e.Reload? then r.dequeued + [e.client] else r.dequeued,
            if mode.Active? then r.observed + [SnapshotOf(r)] else r.observed)
  }

  /** The whole life of the supervisor over a trace of events. */
  function Life(r: History, trace: seq<Event>, mode: Mode): History
    decreases |trace|
  {
    if r.state.finished || trace == [] then r
    else
      var next := Next(r, trace[0], mode);
      Life(next, trace[1..], NextMode(next.state, trace[0], mode))
  }

  /** The loop the supervisor is in after the trace. */
  function ModeAfter(r: History, trace: seq<Event>, mode: Mode): Mode
    decreases |trace|
  {
    if r.state.finished || trace == [] then mode
    else
      var next := Next(r, trace[0], mode);
      ModeAfter(next, trace[1..], NextMode(next.state, trace[0], mode))
  }

  function Begin(initial: Config): History {
    var addresses := ListenerAddresses(initial);
    History(State(initial, 1, None, false, initial, initial, Listeners(addresses, addresses), [], [], false), [], [])
  }

  lemma LifeStep(r: History, trace: seq<Event>, k: nat, mode: Mode)
    requires !r.state.finished && k < |trace|
    ensures var next := Next(r, trace[k], mode);
            Life(r, trace[k..], mode) == Life(next, trace[k + 1..], NextMode(next.state, trace[k], mode))
  {
    assert trace[k..][0] == trace[k] && trace[k..][1..] == trace[k + 1..];
  }

  // ---------------------------------------------------------- what a life keeps

  ghost predicate ListenersFollow(s: State) {
    s.listeners.addresses == ListenerAddresses(s.listening) && (s.finished || s.listening == s.current)
  }

  ghost predicate RecordKept(r: History) {
    Disciplined(r.state.replies, r.dequeued, r.state.pending, r.state.generation, r.state.ready)
  }

  ghost predicate Orderly(r: History, mode: Mode) {
    && ListenersFollow(r.state) && RecordKept(r) && AllAgree(r.observed)
    && !(r.state.pending.Some? && r.state.recovering)
    && (mode.Active? && !r.state.finished ==> Steady(r.state))
  }

  /** Everyone follows the running generation, and nothing is under way. */
  predicate Steady(s: State) {
    && s.current == s.published == s.listening && s.listeners.addresses == ListenerAddresses(s.listening)
    && s.pending.None? && !s.recovering && !s.finished
  }

  /**
   A reload is all or nothing. Served from a steady state and started or rolled back, it
   ends steady again, with the offered configuration, the next generation and an
   acknowledgement, or with everything as before and a refusal; otherwise the
   supervisor has given up. Listener addresses move with the configuration.
   */
  lemma ReloadAllOrNothing(s: State, e: Event, starts: bool, restore: Binds)
    requires Steady(s) && e.Reload?
    ensures var served := OnReload(s, e);
            var t := if served.pending.None? then served
                     else if starts then OnReady(served)
                     else OnFailed(served, restore);
            || t.finished
            || (Steady(t) && e.loaded == Some(t.current) && t.generation == s.generation + 1 && starts
                && t.replies == s.replies + [Reply(e.client, Some(t.generation))]
                && t.ready == s.ready + [t.generation])
            || (Steady(t) && t == s.(listeners := t.listeners, replies := s.replies + [Reply(e.client, None)]))
  {
    if e.loaded.Some? && Accepted(s, e.loaded.value, e.offer) && e.stopped && !starts {
      var served := OnReload(s, e);
      assert served.listeners.addresses == ListenerAddresses(e.loaded.value);
      assert Accepted(served, s.current, restore) ==>
               OnFailed(served, restore).listeners.addresses == ListenerAddresses(s.current);
    }
  }

  lemma ReloadKept(r: History, e: Event)
    requires RecordKept(r) && Steady(r.state) && e.Reload?
    ensures RecordKept(History(OnReload(r.state, e), r.dequeued + [e.client], r.observed))
  {
    var s := r.state;
    var pending := Pending(s.current, e.client);
    TakeCommand(s.replies, r.dequeued, s.generation, s.ready, pending);
    AnswerPending(s.replies, r.dequeued + [e.client], s.generation, s.ready, pending, false);
  }

  lemma TurnKept(r: History, e: Event, spent: bool)
    requires RecordKept(r) && Steady(r.state)
    ensures RecordKept(Next(r, e, Active(spent)))
  {
    var s := r.state;
    if e.Reload? {
      ReloadKept(r, e);
    } else {
      Advance(s.replies, r.dequeued, None, s.generation, s.ready);
    }
  }

  lemma StartKept(r: History, e: Event)
    requires RecordKept(r)
    ensures RecordKept(Next(r, e, Starting))
  {
    var s := r.state;
    if e.RuntimeReady? {
      ReadyKeeps(s.replies, r.dequeued, s.pending, s.generation, s.ready);
    } else if e.RuntimeFails? && s.pending.Some? {
      AnswerPending(s.replies, r.dequeued, s.generation, s.ready, s.pending.value, false);
    }
  }

  lemma TurnFollows(s: State, e: Event, spent: bool)
    requires Steady(s)
    ensures var t := OnTurn(s, e, spent);
            && ListenersFollow(t) && !(t.pending.Some? && t.recovering)
            && (!t.finished && NextMode(t, e, Active(spent)).Active? ==> Steady(t))
  {
  }

  lemma StartFollows(s: State, e: Event)
    requires ListenersFollow(s) && !s.finished && !(s.pending.Some? && s.recovering)
    ensures var t := OnEvent(s, e, Starting);
            && ListenersFollow(t) && !(t.pending.Some? && t.recovering)
            && (!t.finished && e.RuntimeReady? ==> Steady(t))
  {
  }

  lemma EventKeeps(r: History, e: Event, mode: Mode)
    requires Orderly(r, mode) && !r.state.finished
    ensures var next := Next(r, e, mode); Orderly(next, NextMode(next.state, e, mode))
  {
    if mode.Active? {
      TurnKept(r, e, mode.leaseSpent);
      TurnFollows(r.state, e, mode.leaseSpent);
      assert Agree(SnapshotOf(r));
    } else {
      StartKept(r, e);
      StartFollows(r.state, e);
    }
  }

  lemma {:induction false} LifeKeeps(r: History, trace: seq<Event>, mode: Mode)
    requires Orderly(r, mode)
    ensures Orderly(Life(r, trace, mode), ModeAfter(r, trace, mode))
    decreases |trace|
  {
    if !r.state.finished && trace != [] {
      EventKeeps(r, trace[0], mode);
      var next := Next(r, trace[0], mode);
      LifeKeeps(next, trace[1..], NextMode(next.state, trace[0], mode));
    }
  }

  /**
   Over every trace, so at every moment: at each turn of the active loop the running, the
   published and the listening configurations were one and no command was unanswered;
   every reload command taken has exactly one reply, in order, but for the one that is
   pending; acknowledged generations increase and ready events never go back; a pending
   reload and a recovery never coexist.
   */
  lemma SupervisorSound(initial: Config, trace: seq<Event>)
    ensures var r := Life(Begin(initial), trace, Starting);
            && AllAgree(r.observed)
            && Disciplined(r.state.replies, r.dequeued, r.state.pending, r.state.generation, r.state.ready)
            && !(r.state.pending.Some? && r.state.recovering)
            && (ModeAfter(Begin(initial), trace, Starting).Active? && !r.state.finished ==>
                  Steady(r.state) && |r.state.replies| == |r.dequeued|)
  {
    LifeKeeps(Begin(initial), trace, Starting);
  }

  /** The history follows the trace: each active event is one observation, each active reload one command taken. */
  lemma {:induction false} LifeJoins(r: History, a: seq<Event>, b: seq<Event>, mode: Mode)
    ensures Life(r, a + b, mode) == Life(Life(r, a, mode), b, ModeAfter(r, a, mode))
    ensures ModeAfter(r, a + b, mode) == ModeAfter(Life(r, a, mode), b, ModeAfter(r, a, mode))
    decreases |a|
  {
    if a == [] {
      assert a + b == b;
    } else if !r.state.finished {
      assert (a + b)[0] == a[0] && (a + b)[1..] == a[1..] + b;
      var next := Next(r, a[0], mode);
      LifeJoins(next, a[1..], b, NextMode(next.state, a[0], mode));
    }
  }

  // ------------------------------------------------------------------- survival

  /** The events that end the supervisor, by what it knows before them. */
  predicate Ends(s: State, e: Event, mode: Mode) {
    match mode
    case Starting =>
      || e.ShutdownSignal?
      || (e.RuntimeFails? &&
          if s.pending.None? then !s.recovering else !Accepted(s, s.pending.value.previous, e.restore))
    case Active(spent) =>
      || e.ShutdownSignal? || e.StopCommand? || e.CommandsClosed?
      || (e.Reload? && e.loaded.Some? && Accepted(s, e.loaded.value, e.offer) && !e.stopped)
      || (e.LeaseTimer? &&
          (spent || (e.expired && (!e.stopped || e.loaded.None? || !Accepted(s, e.loaded.value, e.offer)))))
  }

  lemma EndsExactly(s: State, e: Event, mode: Mode)
    requires !s.finished
    ensures OnEvent(s, e, mode).finished <==> Ends(s, e, mode)
  {
  }

  /** Some event of the trace meets a state that it ends. */
  predicate Fatal(r: History, trace: seq<Event>, mode: Mode)
    decreases |trace|
  {
    && trace != []
    && var next := Next(r, trace[0], mode);
       Ends(r.state, trace[0], mode) || Fatal(next, trace[1..], NextMode(next.state, trace[0], mode))
  }

  /** The supervisor survives a trace if and only if no event of it is fatal where it happens. */
  lemma {:induction false} SurvivesExactly(r: History, trace: seq<Event>, mode: Mode)
    requires !r.state.finished
    ensures Life(r, trace, mode).state.finished <==> Fatal(r, trace, mode)
    decreases |trace|
  {
    if trace != [] {
      EndsExactly(r.state, trace[0], mode);
      var next := Next(r, trace[0], mode);
      if !next.state.finished {
        SurvivesExactly(next, trace[1..], NextMode(next.state, trace[0], mode));
      }
    }
  }

  /**
   A lease pass that finds nothing expired disarms the timer without replacing it: the
   loop goes on, and the next poll of the timer ends the supervisor, whatever it would
   have found.
   */
  lemma SpentTimerIsFatal(r: History, stopped: bool, loaded: Option<Config>, offer: Binds, again: Event)
    requires Steady(r.state) && again.LeaseTimer?
    ensures var first := LeaseTimer(false, stopped, loaded, offer);
            && !Life(r, [first], Active(false)).state.finished
            && ModeAfter(r, [first], Active(false)) == Active(true)
            && Life(r, [first, again], Active(false)).state.finished
  {
    var first := LeaseTimer(false, stopped, loaded, offer);
    var next := Next(r, first, Active(false));
    assert [first][1..] == [];
    LifeJoins(r, [first], [again], Active(false));
    assert [first] + [again] == [first, again];
    assert Life(next, [again], Active(true)) == Life(Next(next, again, Active(true)), [], Starting) by {
      assert [again][1..] == [];
    }
  }

  // ------------------------------------------------------------------- the loop

  class Supervise {
    var current: Config
    var generation: nat
    var pendingReload: Option<Pending>
    var recovering: bool
    var activeConfig: Config          // the published configuration
    const enrollment: ListenerServer
    var replies: seq<Reply>
    var ready: seq<nat>               // generations of the published ready events
    var finished: bool                // the supervisor has returned

    ghost var dequeued: seq<Client>   // reload commands taken off the queue
    ghost var observed: seq<Snapshot> // what every turn of the active loop saw

    ghost predicate Valid()
      reads this, enrollment, enrollment.listenerSet
    {
      enrollment.Valid()
    }

    ghost function View(): State
      reads this, enrollment, enrollment.listenerSet
    {
      State(current, generation, pendingReload, recovering, activeConfig, enrollment.activeConfig,
            enrollment.listenerSet.View(), replies, ready, finished)
    }

    ghost function Log(): History
      reads this, enrollment, enrollment.listenerSet
    {
      History(View(), dequeued, observed)
    }

    constructor (initial: Config)
      ensures Valid() && Log() == Begin(initial)
      ensures fresh(enrollment) && fresh(enrollment.listenerSet)
    {
      current, activeConfig, generation := initial, initial, 1;
      pendingReload, recovering, finished := None, false, false;
      enrollment := new ListenerServer(initial);
      replies, ready, dequeued, observed := [], [], [], [];
    }

    /** A reload whose generation did not start: the listeners and the previous generation come back. */
    method RollBack(restore: Binds)
      requires Valid() && pendingReload.Some?
      modifies this`pendingReload, this`replies, this`current, this`finished, enrollment, enrollment.listenerSet
      ensures Valid() && View() == OnFailed(old(View()), restore)
    {
      var Pending(previous, client) := pendingReload.value;
      var restored := enrollment.Reconcile(previous, restore);
      pendingReload := None;
      replies := replies + [Reply(client, None)];
      if restored {
        current := previous;
      } else {
        finished := true;
      }
    }

    /** A startup that failed: roll back a pending reload, retry a recovery, or give up. */
    method StartupFailed(restore: Binds)
      requires Valid() && !finished
      modifies this`pendingReload, this`replies, this`current, this`finished, enrollment, enrollment.listenerSet
      ensures Valid() && View() == OnFailed(old(View()), restore)
    {
      if pendingReload.Some? {
        RollBack(restore);
      } else if !recovering {
        finished := true;
      }
    }

    /** A startup that succeeded: publish, acknowledge, announce. */
    method StartupReady()
      requires Valid()
      modifies this`recovering, this`activeConfig, this`generation, this`replies, this`pendingReload, this`ready
      ensures Valid() && View() == OnReady(old(View()))
    {
      recovering := false;
      activeConfig := current;
      if pendingReload.Some? {
        generation := generation + 1;
      }
      replies := replies + Acknowledgement(pendingReload, generation);
      pendingReload := None;
      ready := ready + [generation];
    }

    /** One reload command: refused at once, fatal, or left pending with the previous generation kept. */
    method ServeReload(e: Event)
      requires Valid() && e.Reload? && !finished
      modifies this`replies, this`finished, this`pendingReload, this`current, this`dequeued
      modifies enrollment, enrollment.listenerSet
      ensures Valid() && View() == OnReload(old(View()), e) && dequeued == old(dequeued) + [e.client]
    {
      dequeued := dequeued + [e.client];
      if e.loaded.None? {
        replies := replies + [Reply(e.client, None)];
        return;
      }
      var accepted := enrollment.Reconcile(e.loaded.value, e.offer);
      if !accepted {
        replies := replies + [Reply(e.client, None)];
      } else if !e.stopped {
        var _ := enrollment.Reconcile(current, e.withdraw);
        replies := replies + [Reply(e.client, None)];
        finished := true;
      } else {
        pendingReload := Some(Pending(current, e.client));
        current := e.loaded.value;
      }
    }

    /** The lease timer: a generation without the expired routes, or the end. */
    method ExpireLeases(e: Event)
      requires Valid() && e.LeaseTimer? && !finished
      modifies this`finished, this`current, this`generation, enrollment, enrollment.listenerSet
      ensures Valid() && View() == OnLease(old(View()), e)
    {
      if !e.stopped || e.loaded.None? {
        finished := true;
        return;
      }
      var accepted := enrollment.Reconcile(e.loaded.value, e.offer);
      if !accepted {
        finished := true;
        return;
      }
      current := e.loaded.value;
      generation := generation + 1;
    }

    /** One poll of the lease timer. One that already fired must not be polled again. */
    method PollLease(e: Event, leaseSpent: bool)
      requires Valid() && e.LeaseTimer? && !finished
      modifies this`finished, this`current, this`generation, enrollment, enrollment.listenerSet
      ensures Valid() && View() == OnTurn(old(View()), e, leaseSpent)
    {
      if leaseSpent {
        finished := true;
      } else if e.expired {
        ExpireLeases(e);
      }
    }

    /** The data plane ended by itself: the generation is rebuilt. */
    method RecoverRuntime()
      modifies this`generation, this`recovering
      ensures generation == old(generation) + 1 && recovering
    {
      generation := generation + 1;
      recovering := true;
    }

    /** One event of the active loop, observed first; `active` asks for another turn. */
    method Turn(e: Event, leaseSpent: bool) returns (active: bool)
      requires Valid() && !finished
      modifies this, enrollment, enrollment.listenerSet
      ensures Valid() && Log() == Next(old(Log()), e, Active(leaseSpent))
      ensures active <==> NextMode(View(), e, Active(leaseSpent)).Active?
      ensures active ==> !finished
    {
      observed := observed + [Snapshot(current, activeConfig, enrollment.activeConfig, |dequeued| - |replies|)];
      match e
      case RuntimeStops =>
        RecoverRuntime();
        active := false;
      case Reload(_, _, _, _, _) =>
        ServeReload(e);
        active := !finished && pendingReload.None?;
      case LeaseTimer(expired, _, _, _) =>
        PollLease(e, leaseSpent);
        active := !leaseSpent && !expired;
      case RuntimeReady => active := true;
      case RuntimeFails(_) => active := true;
      case _ =>
        finished := true;
        active := false;
    }

    /** The turn at one event of a trace leaves the rest of the trace to be lived. */
    method TurnAt(trace: seq<Event>, k: nat, leaseSpent: bool) returns (active: bool, spent: bool)
      requires Valid() && !finished && k < |trace|
      modifies this, enrollment, enrollment.listenerSet
      ensures Valid() && (active ==> !finished)
      ensures Life(old(Log()), trace[k..], Active(leaseSpent)) ==
              Life(Log(), trace[k + 1..], if active then Active(spent) else Starting)
    {
      LifeStep(Log(), trace, k, Active(leaseSpent));
      active := Turn(trace[k], leaseSpent);
      spent := leaseSpent || trace[k].LeaseTimer?;
    }

    /** The active loop: one turn per event, until a generation has to be started or the end. */
    method RunActive(trace: seq<Event>, start: nat) returns (k: nat)
      requires Valid() && !finished && start <= |trace|
      modifies this, enrollment, enrollment.listenerSet
      ensures Valid() && start <= k <= |trace|
      ensures Life(old(Log()), trace[start..], Active(false)) == Life(Log(), trace[k..], Starting)
    {
      k := start;
      var active, leaseSpent := true, false;
      ghost var end := Life(Log(), trace[start..], Active(false));
      while k < |trace| && active
        invariant Valid() && start <= k <= |trace| && (active ==> !finished)
        invariant end == Life(Log(), trace[k..], if active then Active(leaseSpent) else Starting)
      {
        active, leaseSpent := TurnAt(trace, k, leaseSpent);
        k := k + 1;
      }
      if k == |trace| {
        assert trace[k..] == [];
      }
    }

    /** The nested loop over a trace of events lives the life the trace determines, in order throughout. */
    method Run(trace: seq<Event>)
      requires Valid() && Orderly(Log(), Starting) && !finished
      modifies this, enrollment, enrollment.listenerSet
      ensures Valid() && Log() == Life(old(Log()), trace, Starting)
      ensures AllAgree(observed) && Disciplined(replies, dequeued, pendingReload, generation, ready)
      ensures !(pendingReload.Some? && recovering)
    {
      LifeKeeps(Log(), trace, Starting);
      var k := 0;
      while k < |trace| && !finished
        invariant Valid() && 0 <= k <= |trace|
        invariant Life(old(Log()), trace, Starting) == Life(Log(), trace[k..], Starting)
      {
        var e := trace[k];
        LifeStep(Log(), trace, k, Starting);
        k := k + 1;
        if e.ShutdownSignal? {
          finished := true;
        } else if e.RuntimeFails? {
          StartupFailed(e.restore);
        } else if e.RuntimeReady? {
          StartupReady();
          if !finished {
            k := RunActive(trace, k);
          }
        }
      }
    }
  }
}
