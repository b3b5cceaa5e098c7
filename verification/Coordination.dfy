/**
 The three kinds of task that wait for each other: enrollment handlers and control
 clients, which wait for the committer and for reload replies; the supervisor, which
 waits for the listener loop and for the data-plane runtime; and the listener loop,
 which waits for nobody.

 `Act` performs one step of one task, or nothing when that step is not enabled, so a
 run is any sequence of steps.
 */
module Coordination {
  import opened Outcomes
  import opened Listeners
  import opened Reloads

  const COMMAND_CAPACITY: nat := 16

  /** A handler needs the committer before it may ask for a reload; a control client does not. */
  datatype Need = Handler | Control

  /** Waiting for the committer, at work, sending a reload command, waiting for its reply. */
  datatype Where = Arriving | Working | Sending | AwaitingReply

  datatype Waiter = Waiter(need: Need, at: Where)

  /** The supervisor's await points. */
  datatype Phase =
    | Starting                                  // the runtime, to become ready
    | Restoring                                 // the listener, after a reload that did not start
    | Active                                    // the next command, runtime exit or lease timer
    | Reading(client: Client)                   // the configuration file
    | Offering(client: Client, next: Config)    // the listener, for a new generation
    | Stopping(client: Client, next: Config)    // the old runtime, to stop
    | Withdrawing(client: Client)               // the listener, before giving up
    | ExpiryStopping                            // the runtime, after an expired lease
    | ExpiryReading                             // the configuration file, after an expired lease
    | ExpiryOffering(next: Config)              // the listener, after an expired lease
    | Finished

  /** The reload queue, everyone who may wait in it, and the committer. */
  datatype Queue = Queue(commands: seq<Client>, clients: map<Client, Waiter>, committer: Option<Client>)

  datatype System = System(
    phase: Phase,
    current: Config,
    published: Config,
    pending: Option<Pending>,
    recovering: bool,
    listening: Config,
    listeners: Listeners,
    losses: nat,                    // handovers that lost both listener sets
    update: Option<Config>,         // what the supervisor asked the listener loop for
    answer: Option<bool>,           // what the listener loop answered
    queue: Queue,
    served: nat                     // replies sent so far
  )

  function Start(initial: Config): System {
    var addresses := ListenerAddresses(initial);
    System(Starting, initial, initial, None, false, initial, Listeners(addresses, addresses), 0, None, None,
           Queue([], map[], None), 0)
  }

  // ------------------------------------------------------------------ actions

  datatype Action =
    | Arrive(client: Client, need: Need)
    | TakeCommitter(client: Client)
    | WantReload(client: Client)
    | Enqueue(client: Client)
    | Leave(client: Client)
    | LoseReply(client: Client)              // the supervisor returned: no reply, or no one to send to
    | ServeUpdate(binds: Binds)              // the listener loop
    | TakeAnswer                             // the supervisor, from the listener loop
    | Dequeue
    | ReadConfig(loaded: Option<Config>)
    | RuntimeStopped(ok: bool)
    | RuntimeReady
    | RuntimeFails
    | RuntimeCrashes
    | LeaseExpires
    | Terminate

  function Ask(s: System, phase: Phase, config: Config): System {
    s.(phase := phase, update := Some(config), answer := None)
  }

  /** An answer, or its loss, lets the client go on: a handler still holds the committer, a control client is done. */
  function Resumed(q: Queue, c: Client): Queue {
    if c !in q.clients then q
    else if q.clients[c].need.Handler? then q.(clients := q.clients[c := q.clients[c].(at := Working)])
    else q.(clients := q.clients - {c})
  }

  function ReplyTo(s: System, c: Client): System {
    s.(served := s.served + 1, queue := Resumed(s.queue, c))
  }

  /** The supervisor returns and its channels close. */
  function Finish(s: System): System {
    s.(phase := Finished, update := None, answer := None, pending := None, queue := s.queue.(commands := []))
  }

  function AnswerTaken(s: System, ok: bool): System {
    var t := s.(answer := None);
    match s.phase
    case Restoring =>
      if s.pending.None? then s
      else if ok then ReplyTo(t.(phase := Starting, current := s.pending.value.previous, pending := None),
                              s.pending.value.client)
      else Finish(ReplyTo(t, s.pending.value.client))
    case Offering(c, next) =>
      if ok then t.(phase := Stopping(c, next)) else ReplyTo(t.(phase := Active), c)
    case Withdrawing(c) => Finish(ReplyTo(t, c))
    case ExpiryOffering(next) => if ok then t.(phase := Starting, current := next) else Finish(t)
    case _ => s
  }

  function Stopped(s: System, ok: bool): System {
    match s.phase
    case Stopping(c, next) =>
      if ok then s.(phase := Starting, current := next, pending := Some(Pending(s.current, c)))
      else Ask(s, Withdrawing(c), s.current)
    case ExpiryStopping => if ok then s.(phase := ExpiryReading) else Finish(s)
    case _ => s
  }

  function Started(s: System, ready: bool): System {
    if !s.phase.Starting? then s
    else if ready then
      var t := s.(phase := Active, published := s.current, recovering := false, pending := None);
      if s.pending.Some? then ReplyTo(t, s.pending.value.client) else t
    else if s.pending.Some? then Ask(s, Restoring, s.pending.value.previous)
    else if s.recovering then s
    else Finish(s)
  }

  function Served(s: System, binds: Binds): System
    requires s.update.Some?
  {
    var addresses := ListenerAddresses(s.update.value);
    var ok := Accepts(s.listeners, addresses, binds);
    s.(listeners := Reconciled(s.listeners, addresses, binds),
       losses := s.losses + (if LosesBoth(s.listeners, addresses, binds) then 1 else 0),
       listening := if ok then s.update.value else s.listening,
       update := None,
       answer := Some(ok))
  }

  /** The clients' own steps. */
  function ClientActs(q: Queue, finished: bool, a: Action): Queue {
    match a
    case Arrive(c, need) =>
      if c in q.clients then q
      else q.(clients := q.clients[c := Waiter(need, if need.Handler? then Arriving else Sending)])
    case TakeCommitter(c) =>
      if q.committer.Some? || c !in q.clients || !q.clients[c].at.Arriving? then q
      else q.(committer := Some(c), clients := q.clients[c := q.clients[c].(at := Working)])
    case WantReload(c) =>
      if c !in q.clients || !q.clients[c].at.Working? then q
      else q.(clients := q.clients[c := q.clients[c].(at := Sending)])
    case Enqueue(c) =>
      if c !in q.clients || !q.clients[c].at.Sending? || |q.commands| >= COMMAND_CAPACITY || finished then q
      else q.(commands := q.commands + [c], clients := q.clients[c := q.clients[c].(at := AwaitingReply)])
    case Leave(c) =>
      if c !in q.clients || !q.clients[c].at.Working? then q
      else q.(clients := q.clients - {c}, committer := if q.committer == Some(c) then None else q.committer)
    case LoseReply(c) =>
      if !finished || c !in q.clients || !(q.clients[c].at.AwaitingReply? || q.clients[c].at.Sending?) then q
      else Resumed(q, c)
    case _ => q
  }

  predicate ByClient(a: Action) {
    a.Arrive? || a.TakeCommitter? || a.WantReload? || a.Enqueue? || a.Leave? || a.LoseReply?
  }

  function Act(s: System, a: Action): System {
    match a
    case ServeUpdate(binds) => if s.update.None? then s else Served(s, binds)
    case TakeAnswer => if s.answer.None? then s else AnswerTaken(s, s.answer.value)
    case Dequeue =>
      if !s.phase.Active? || s.queue.commands == [] then s
      else s.(phase := Reading(s.queue.commands[0]), queue := s.queue.(commands := s.queue.commands[1..]))
    case ReadConfig(loaded) =>
      match s.phase {
        case Reading(c) =>
          if loaded.None? then ReplyTo(s.(phase := Active), c) else Ask(s, Offering(c, loaded.value), loaded.value)
        case ExpiryReading =>
          if loaded.None? then Finish(s) else Ask(s, ExpiryOffering(loaded.value), loaded.value)
        case _ => s
      }
    case RuntimeStopped(ok) => Stopped(s, ok)
    case RuntimeReady => Started(s, true)
    case RuntimeFails => Started(s, false)
    case RuntimeCrashes => if s.phase.Active? then s.(phase := Starting, recovering := true) else s
    case LeaseExpires => if s.phase.Active? then s.(phase := ExpiryStopping) else s
    case Terminate => if s.phase.Active? || s.phase.Starting? then Finish(s) else s
    case _ => s.(queue := ClientActs(s.queue, s.phase.Finished?, a))
  }

  function Run(s: System, actions: seq<Action>): System
    decreases |actions|
  {
    if actions == [] then s else Run(Act(s, actions[0]), actions[1..])
  }

  // ---------------------------------------------------------------- invariant

  /** The exchange with the listener loop about `next`, starting from `from`. */
  ghost predicate Asking(s: System, from: Config, next: Config) {
    || (s.update == Some(next) && s.answer.None? && s.listening == from)
    || (s.update.None? && s.answer == Some(true) && s.listening == next)
    || (s.update.None? && s.answer == Some(false) && s.listening == from)
  }

  ghost predicate Quiet(s: System) {
    s.update.None? && s.answer.None?
  }

  ghost predicate ConfigsConsistent(s: System) {
    match s.phase
    case Active => Quiet(s) && s.current == s.published == s.listening && s.pending.None? && !s.recovering
    case Reading(_) => Quiet(s) && s.current == s.published == s.listening && s.pending.None? && !s.recovering
    case Offering(_, next) => Asking(s, s.current, next) && s.current == s.published && s.pending.None? && !s.recovering
    case Stopping(_, next) =>
      Quiet(s) && s.listening == next && s.current == s.published && s.pending.None? && !s.recovering
    case Withdrawing(_) =>
      (s.update.Some? || s.answer.Some?) && !(s.update.Some? && s.answer.Some?) && s.pending.None? && !s.recovering
    case Starting => Quiet(s) && s.listening == s.current && !(s.pending.Some? && s.recovering)
    case Restoring => s.pending.Some? && Asking(s, s.current, s.pending.value.previous) && !s.recovering
    case ExpiryStopping => Quiet(s) && s.listening == s.current && s.pending.None? && !s.recovering
    case ExpiryReading => Quiet(s) && s.listening == s.current && s.pending.None? && !s.recovering
    case ExpiryOffering(next) => Asking(s, s.current, next) && s.pending.None? && !s.recovering
    case Finished => Quiet(s) && s.pending.None?
  }

  /** The client whose reload command is being served. */
  function Serving(s: System): Option<Client> {
    match s.phase
    case Reading(c) => Some(c)
    case Offering(c, _) => Some(c)
    case Stopping(c, _) => Some(c)
    case Withdrawing(c) => Some(c)
    case _ => if s.pending.Some? then Some(s.pending.value.client) else None
  }

  /** Clients that await a reply are exactly those in the queue or being served, each once. */
  ghost predicate AwaitersQueued(q: Queue, serving: Option<Client>, finished: bool) {
    && |q.commands| <= COMMAND_CAPACITY
    && (forall i, j :: 0 <= i < j < |q.commands| ==> q.commands[i] != q.commands[j])
    && (serving.Some? ==> serving.value !in q.commands)
    && (forall c :: c in q.commands || serving == Some(c) ==> c in q.clients && q.clients[c].at.AwaitingReply?)
    && (if finished then q.commands == []
        else forall c :: c in q.clients && q.clients[c].at.AwaitingReply? ==> c in q.commands || serving == Some(c))
  }

  /** The committer is held by exactly the handler that is past `Arriving`. */
  ghost predicate CommitterHeld(q: Queue) {
    && (forall c :: c in q.clients && q.clients[c].need.Handler? && !q.clients[c].at.Arriving? ==>
        q.committer == Some(c))
    && (q.committer.Some? ==> q.committer.value in q.clients && q.clients[q.committer.value].need.Handler?
                              && !q.clients[q.committer.value].at.Arriving?)
    && (forall c :: c in q.clients && q.clients[c].at.Arriving? ==> q.clients[c].need.Handler?)
  }

  ghost predicate QueueInv(q: Queue, serving: Option<Client>, finished: bool) {
    AwaitersQueued(q, serving, finished) && CommitterHeld(q)
  }

  ghost predicate ListenersFollow(s: System) {
    && s.listeners.addresses == ListenerAddresses(s.listening)
    && (s.listeners.open == s.listeners.addresses || s.listeners.open == [])
    && (s.losses == 0 ==> Healthy(s.listeners))
  }

  ghost predicate Inv(s: System) {
    ConfigsConsistent(s) && ListenersFollow(s) && QueueInv(s.queue, Serving(s), s.phase.Finished?)
  }

  // ------------------------------------------------------------- preservation

  /** The reply to the client being served settles its place in the queue. */
  lemma ReplySettles(q: Queue, c: Client)
    requires QueueInv(q, Some(c), false)
    ensures QueueInv(Resumed(q, c), None, false)
  {
  }

  lemma ClientKeepsQueue(q: Queue, serving: Option<Client>, finished: bool, a: Action)
    requires QueueInv(q, serving, finished) && (finished ==> serving.None?)
    ensures QueueInv(ClientActs(q, finished, a), serving, finished)
  {
  }

  lemma DequeueKeepsQueue(q: Queue)
    requires QueueInv(q, None, false) && q.commands != []
    ensures QueueInv(q.(commands := q.commands[1..]), Some(q.commands[0]), false)
  {
    assert forall c :: c in q.commands ==> c == q.commands[0] || c in q.commands[1..];
  }

  lemma ServeKeeps(s: System, binds: Binds)
    requires Inv(s) && s.update.Some?
    ensures Inv(Served(s, binds))
  {
  }

  lemma TakeAnswerKeeps(s: System)
    requires Inv(s) && s.answer.Some?
    ensures Inv(AnswerTaken(s, s.answer.value))
  {
    if Serving(s).Some? {
      ReplySettles(s.queue, Serving(s).value);
    }
  }

  lemma StartedKeeps(s: System, ready: bool)
    requires Inv(s)
    ensures Inv(Started(s, ready))
  {
    if s.phase.Starting? && s.pending.Some? {
      ReplySettles(s.queue, s.pending.value.client);
    }
  }

  lemma StoppedKeeps(s: System, ok: bool)
    requires Inv(s)
    ensures Inv(Stopped(s, ok))
  {
  }

  lemma DequeueKeeps(s: System)
    requires Inv(s)
    ensures Inv(Act(s, Dequeue))
  {
    if s.phase.Active? && s.queue.commands != [] {
      DequeueKeepsQueue(s.queue);
    }
  }

  lemma ReadConfigKeeps(s: System, loaded: Option<Config>)
    requires Inv(s)
    ensures Inv(Act(s, ReadConfig(loaded)))
  {
    if s.phase.Reading? {
      ReplySettles(s.queue, s.phase.client);
    }
  }

  lemma ActKeeps(s: System, a: Action)
    requires Inv(s)
    ensures Inv(Act(s, a))
  {
    if ByClient(a) {
      ClientKeepsQueue(s.queue, Serving(s), s.phase.Finished?, a);
    } else if a.ServeUpdate? {
      if s.update.Some? {
        ServeKeeps(s, a.binds);
      }
    } else if a.TakeAnswer? {
      if s.answer.Some? {
        TakeAnswerKeeps(s);
      }
    } else if a.Dequeue? {
      DequeueKeeps(s);
    } else if a.ReadConfig? {
      ReadConfigKeeps(s, a.loaded);
    } else if a.RuntimeStopped? {
      StoppedKeeps(s, a.ok);
    } else if a.RuntimeReady? || a.RuntimeFails? {
      StartedKeeps(s, a.RuntimeReady?);
    }
  }

  lemma {:induction false} RunKeeps(s: System, actions: seq<Action>)
    requires Inv(s)
    ensures Inv(Run(s, actions))
    decreases |actions|
  {
    if actions != [] {
      ActKeeps(s, actions[0]);
      RunKeeps(Act(s, actions[0]), actions[1..]);
    }
  }

  /**
   Consistency: whatever clients, listener loop and runtime do, in every reachable
   active state the running, the published and the listening configurations are
   equal, a pending reload and a recovery never coexist, and the listeners are the
   ones the configuration asks for unless a handover lost both sets.
   */
  lemma ActiveConsistency(initial: Config, actions: seq<Action>)
    ensures var s := Run(Start(initial), actions);
            && (s.phase.Active? ==> s.current == s.published == s.listening)
            && !(s.pending.Some? && s.recovering)
            && s.listeners.addresses == ListenerAddresses(s.listening)
            && (s.losses == 0 ==> s.listeners.open == ListenerAddresses(s.listening))
            && |s.listeners.open| <= 2
  {
    RunKeeps(Start(initial), actions);
    WildcardsAgree(Run(Start(initial), actions).listening);
  }

  // ---------------------------------------------------------------- progress

  /**
   A client that cannot go on by itself: without the committer, before a full command
   channel, or without its reply.
   */
  predicate Blocked(s: System, c: Client) {
    && c in s.queue.clients
    && match s.queue.clients[c].at
       case Arriving => s.queue.committer.Some?
       case Working => false
       case Sending => |s.queue.commands| >= COMMAND_CAPACITY && !s.phase.Finished?
       case AwaitingReply => !s.phase.Finished?
  }

  const FAIR_BINDS := Binds(Attempt(Bound, true), Attempt(Bound, true), Attempt(Bound, true))

  /** A step of the supervisor, of the listener loop, or of the runtime it waits for. */
  function ChainStep(s: System): Action {
    match s.phase
    case Starting => RuntimeReady
    case Active => Dequeue
    case Reading(_) => ReadConfig(None)
    case Stopping(_, _) => RuntimeStopped(true)
    case ExpiryStopping => RuntimeStopped(true)
    case ExpiryReading => ReadConfig(None)
    case _ => if s.update.Some? then ServeUpdate(FAIR_BINDS) else TakeAnswer
  }

  /**
   Who a blocked client waits for in the end: itself, when it waits for the supervisor, or
   the holder of the committer, which is at work or waits for the supervisor in turn.
   */
  function WaitsOn(s: System, c: Client): Client
    requires c in s.queue.clients
  {
    if s.queue.clients[c].at.Arriving? && s.queue.committer.Some? then s.queue.committer.value else c
  }

  /** The step the client itself can take next. */
  function OwnStep(s: System, w: Client): Action
    requires w in s.queue.clients
  {
    match s.queue.clients[w].at
    case Arriving => TakeCommitter(w)
    case Working => Leave(w)
    case Sending => if s.phase.Finished? then LoseReply(w) else Enqueue(w)
    case AwaitingReply => LoseReply(w)
  }

  /** The client itself can step, or the chain it waits for can. */
  ghost predicate CanMove(s: System, w: Client) {
    w in s.queue.clients && (Act(s, OwnStep(s, w)) != s || Act(s, ChainStep(s)) != s)
  }

  /** The supervisor, listener loop and runtime always have a step while a command is queued or served. */
  lemma ChainCanMove(s: System)
    requires Inv(s) && !s.phase.Finished? && (s.queue.commands != [] || Serving(s).Some?)
    ensures Act(s, ChainStep(s)) != s
  {
  }

  /** Someone who is not blocked can take its own step. */
  lemma UnblockedSteps(s: System, c: Client)
    requires Inv(s) && c in s.queue.clients
    ensures !Blocked(s, c) <==> Act(s, OwnStep(s, c)) != s
  {
  }

  lemma BlockedCanMove(s: System, c: Client)
    requires Inv(s) && Blocked(s, c)
    ensures CanMove(s, WaitsOn(s, c))
    ensures Blocked(s, WaitsOn(s, c)) ==> Act(s, ChainStep(s)) != s
  {
    var w := WaitsOn(s, c);
    UnblockedSteps(s, w);
    if Blocked(s, w) {
      assert s.queue.clients[w].at.Sending? || s.queue.clients[w].at.AwaitingReply?;
      ChainCanMove(s);
    }
  }

  /**
   Deadlock freedom: in every reachable state and for every blocked client, waiting for
   the committer, for room in the command channel or for a reply, whoever it waits on in the
   end can step itself, or is blocked on the supervisor and then the supervisor, the
   listener loop or the runtime has an enabled step. No step of that chain looks at the
   committer.
   */
  lemma NoDeadlock(initial: Config, actions: seq<Action>, c: Client)
    ensures var s := Run(Start(initial), actions);
            Blocked(s, c) ==>
              && CanMove(s, WaitsOn(s, c))
              && (Blocked(s, WaitsOn(s, c)) ==> Act(s, ChainStep(s)) != s)
  {
    RunKeeps(Start(initial), actions);
    var s := Run(Start(initial), actions);
    if Blocked(s, c) {
      BlockedCanMove(s, c);
    }
  }

  predicate InService(s: System) {
    Serving(s).Some?
  }

  /** Chain steps left before the command being served has its reply. */
  function Rank(s: System): nat {
    match s.phase
    case Reading(_) => 9
    case Offering(_, _) => if s.update.Some? then 8 else 7
    case Stopping(_, _) => 6
    case Starting => 5
    case Restoring => if s.update.Some? then 4 else 3
    case Withdrawing(_) => if s.update.Some? then 2 else 1
    case _ => 0
  }

  predicate OfChain(a: Action) {
    a.ServeUpdate? || a.TakeAnswer? || a.Dequeue? || a.ReadConfig? || a.RuntimeStopped? || a.RuntimeReady? ||
    a.RuntimeFails? || a.RuntimeCrashes? || a.LeaseExpires?
  }

  /** Clients cannot delay the command being served, and every chain step brings its reply nearer. */
  lemma ServiceAdvances(s: System, a: Action)
    requires Inv(s) && InService(s)
    ensures var t := Act(s, a);
            || t.served == s.served + 1
            || t.phase.Finished?
            || (t.served == s.served && Serving(t) == Serving(s)
                && (if OfChain(a) && t != s then Rank(t) < Rank(s) else Rank(t) == Rank(s)))
  {
  }

  /** The number of chain steps of a run that did something. */
  ghost function Effort(s: System, actions: seq<Action>): nat
    decreases |actions|
  {
    if actions == [] then 0
    else Effort(Act(s, actions[0]), actions[1..]) + (if OfChain(actions[0]) && Act(s, actions[0]) != s then 1 else 0)
  }

  lemma {:induction false} ServedGrows(s: System, actions: seq<Action>)
    ensures s.served <= Run(s, actions).served
    decreases |actions|
  {
    if actions != [] {
      ServedGrows(Act(s, actions[0]), actions[1..]);
    }
  }

  lemma {:induction false} FinishedStays(s: System, actions: seq<Action>)
    requires s.phase.Finished? && Inv(s)
    ensures Run(s, actions).phase.Finished?
    decreases |actions|
  {
    if actions != [] {
      ActKeeps(s, actions[0]);
      FinishedStays(Act(s, actions[0]), actions[1..]);
    }
  }

  /**
   Bounded service: from the moment a reload is dequeued, any run in which it is
   still unanswered and the supervisor has not returned contains at most nine
   effective steps of the supervisor, the listener loop and the runtime, however
   many steps the clients take in between.
   */
  lemma {:induction false} BoundedService(s: System, actions: seq<Action>)
    requires Inv(s) && InService(s)
    requires Run(s, actions).served == s.served && !Run(s, actions).phase.Finished?
    ensures Effort(s, actions) + Rank(Run(s, actions)) <= Rank(s) <= 9
    decreases |actions|
  {
    if actions != [] {
      var t := Act(s, actions[0]);
      ServedGrows(t, actions[1..]);
      ActKeeps(s, actions[0]);
      if t.phase.Finished? {
        FinishedStays(t, actions[1..]);
      }
      ServiceAdvances(s, actions[0]);
      BoundedService(t, actions[1..]);
    }
  }

  // ------------------------------------------------------------ queued commands

  /** Crashes of the runtime and expiries of leases: the only chain steps that set a queued command back. */
  predicate Disturbs(a: Action) {
    a.RuntimeCrashes? || a.LeaseExpires?
  }

  ghost function Disturbances(s: System, actions: seq<Action>): nat
    decreases |actions|
  {
    if actions == [] then 0
    else
      Disturbances(Act(s, actions[0]), actions[1..]) +
      (if Disturbs(actions[0]) && Act(s, actions[0]) != s then 1 else 0)
  }

  /** Chain steps left before the supervisor can take the next command. */
  function Busy(s: System): nat {
    match s.phase
    case Active => 0
    case Starting => if s.pending.Some? then 6 else 1
    case ExpiryStopping => 5
    case ExpiryReading => 4
    case ExpiryOffering(_) => if s.update.Some? then 3 else 2
    case Finished => 0
    case _ => Rank(s) + 1
  }

  /** The place of a waiting client's command: zero when it is served, else counted from the head of the queue. */
  ghost predicate Waits(s: System, c: Client, place: nat) {
    if place == 0 then Serving(s) == Some(c)
    else place <= |s.queue.commands| && s.queue.commands[place - 1] == c
  }

  function Wait(s: System, place: nat): nat {
    Busy(s) + 11 * place
  }

  /** The client's reply is outstanding in every state of the run. */
  ghost predicate Outstanding(s: System, actions: seq<Action>, c: Client)
    decreases |actions|
  {
    && (exists place :: Waits(s, c, place)) && !s.phase.Finished?
    && (actions != [] ==> Outstanding(Act(s, actions[0]), actions[1..], c))
  }

  /** Clients' steps leave everyone's place and the supervisor's work as they are. */
  lemma ClientsKeepPlaces(s: System, a: Action, c: Client, place: nat)
    requires Inv(s) && Waits(s, c, place) && ByClient(a) && !s.phase.Finished?
    ensures Waits(Act(s, a), c, place) && Wait(Act(s, a), place) == Wait(s, place)
  {
  }

  lemma DequeueMovesUp(s: System, c: Client, place: nat)
    requires Inv(s) && Waits(s, c, place) && s.phase.Active? && s.queue.commands != []
    ensures place > 0 && Waits(Act(s, Dequeue), c, place - 1)
    ensures Wait(Act(s, Dequeue), place - 1) + 1 == Wait(s, place)
  {
  }

  /** A queued command keeps its place through every other step, and the supervisor comes nearer to it. */
  lemma QueuedKeepsPlace(s: System, a: Action, c: Client, place: nat)
    requires Inv(s) && place > 0 && Waits(s, c, place) && !ByClient(a) && !a.Dequeue? && !Act(s, a).phase.Finished?
    ensures Waits(Act(s, a), c, place)
    ensures Act(s, a) != s ==> Wait(Act(s, a), place) + 1 <= Wait(s, place) + (if Disturbs(a) then 6 else 0)
  {
  }

  /** A command being served stays so until its reply, each step bringing it nearer. */
  lemma ServedKeepsPlace(s: System, a: Action, c: Client)
    requires Inv(s) && Waits(s, c, 0) && !ByClient(a) && !Act(s, a).phase.Finished? && Act(s, a).served == s.served
    ensures Waits(Act(s, a), c, 0) && (Act(s, a) != s ==> Wait(Act(s, a), 0) + 1 <= Wait(s, 0))
  {
    ServiceAdvances(s, a);
  }

  /** A reply to a client takes it out of every waiting place. */
  lemma RepliedWaitsNoMore(s: System, a: Action, c: Client, place: nat)
    requires Inv(s) && Waits(s, c, 0) && Act(s, a).served != s.served
    ensures !Waits(Act(s, a), c, place)
  {
  }

  lemma WaitShrinks(s: System, a: Action, c: Client, place: nat) returns (next: nat)
    requires Inv(s) && Waits(s, c, place) && !s.phase.Finished? && !Act(s, a).phase.Finished?
    requires exists p :: Waits(Act(s, a), c, p)
    ensures Waits(Act(s, a), c, next)
    ensures var cost := if OfChain(a) && Act(s, a) != s then 1 else 0;
            Wait(Act(s, a), next) + cost <= Wait(s, place) + (if Disturbs(a) && Act(s, a) != s then 6 else 0)
  {
    next := place;
    if ByClient(a) {
      ClientsKeepPlaces(s, a, c, place);
    } else if a.Dequeue? {
      if s.phase.Active? && s.queue.commands != [] {
        DequeueMovesUp(s, c, place);
        next := place - 1;
      }
    } else if place > 0 {
      QueuedKeepsPlace(s, a, c, place);
    } else {
      var p :| Waits(Act(s, a), c, p);
      if Act(s, a).served != s.served {
        RepliedWaitsNoMore(s, a, c, p);
      }
      ServedKeepsPlace(s, a, c);
    }
  }

  /**
   Bounded waiting: while a command waits, behind any number of others, the chain takes
   at most eleven effective steps for each place in the queue, ten for what it is doing,
   and six for each crash or lease expiry in between.
   */
  lemma {:induction false} BoundedWait(s: System, actions: seq<Action>, c: Client, place: nat)
    requires Inv(s) && Waits(s, c, place) && Outstanding(s, actions, c)
    ensures Effort(s, actions) <= Wait(s, place) + 6 * Disturbances(s, actions)
    ensures Wait(s, place) <= 10 + 11 * place
    decreases |actions|
  {
    if actions != [] {
      var a := actions[0];
      ActKeeps(s, a);
      var next := WaitShrinks(s, a, c, place);
      BoundedWait(Act(s, a), actions[1..], c, next);
    }
  }
}
