/**
 The concurrent tasks refine the supervisor's loop: the supervisor part of every
 interleaving of clients, listener loop and runtime is the life of some trace of events.
 */
module Refinement {
  import opened Outcomes
  import opened Listeners
  import opened Reloads
  import S = Supervisor
  import C = Coordination

  /** What has been decided of the event under way: the offered configuration and the binds so far. */
  datatype Underway = Underway(next: Config, first: Binds, second: Binds)

  /** The listeners are being asked, or have answered, about `next`. */
  ghost predicate Asked(v: S.State, s: C.System, next: Config, binds: Binds) {
    if s.update.Some? then s.update.value == next && s.listeners == v.listeners && s.listening == v.listening
    else
      && s.answer == Some(S.Accepted(v, next, binds))
      && s.listeners == S.Offered(v, next, binds).listeners && s.listening == S.Offered(v, next, binds).listening
  }

  ghost predicate Same(v: S.State, s: C.System) {
    s.listeners == v.listeners && s.listening == v.listening
  }

  ghost predicate Core(v: S.State, s: C.System) {
    && v.current == s.current && v.published == s.published && v.pending == s.pending
    && v.recovering == s.recovering && !v.finished
  }

  /** The history has come as far as the last event that is complete. */
  ghost predicate Tracks(r: S.History, mode: S.Mode, s: C.System, u: Underway) {
    var v := r.state;
    && |v.replies| == s.served
    && match s.phase
       case Finished => v.finished
       case Starting => mode.Starting? && Core(v, s) && Same(v, s)
       case Restoring =>
         mode.Starting? && Core(v, s) && s.pending.Some? && Asked(v, s, s.pending.value.previous, u.first)
       case Active => mode == S.Active(false) && Core(v, s) && Same(v, s)
       case Reading(_) => mode == S.Active(false) && Core(v, s) && Same(v, s)
       case Offering(_, next) => mode == S.Active(false) && Core(v, s) && Asked(v, s, next, u.first)
       case Stopping(_, next) =>
         mode == S.Active(false) && Core(v, s) && S.Accepted(v, next, u.first) && Same(S.Offered(v, next, u.first), s)
       case Withdrawing(_) =>
         && mode == S.Active(false) && Core(v, s) && S.Accepted(v, u.next, u.first)
         && Asked(S.Offered(v, u.next, u.first), s, s.current, u.second)
       case ExpiryStopping => mode == S.Active(false) && Core(v, s) && Same(v, s)
       case ExpiryReading => mode == S.Active(false) && Core(v, s) && Same(v, s)
       case ExpiryOffering(next) => mode == S.Active(false) && Core(v, s) && Asked(v, s, next, u.first)
  }

  const NO_BINDS := Binds(Attempt(Refused, false), Attempt(Refused, false), Attempt(Refused, false))

  /** The event that a step completes, if it completes one. */
  function Completes(s: C.System, a: C.Action, u: Underway): Option<S.Event> {
    if C.Act(s, a) == s then None
    else match s.phase
      case Starting =>
        if a.RuntimeReady? then Some(S.RuntimeReady)
        else if a.RuntimeFails? && s.pending.None? then Some(S.RuntimeFails(NO_BINDS))
        else if a.Terminate? then Some(S.ShutdownSignal)
        else None
      case Restoring => if a.TakeAnswer? then Some(S.RuntimeFails(u.first)) else None
      case Active =>
        if a.RuntimeCrashes? then Some(S.RuntimeStops) else if a.Terminate? then Some(S.ShutdownSignal) else None
      case Reading(c) =>
        if a.ReadConfig? && a.loaded.None? then Some(S.Reload(c, None, NO_BINDS, false, NO_BINDS)) else None
      case Offering(c, next) =>
        if a.TakeAnswer? && s.answer == Some(false) then Some(S.Reload(c, Some(next), u.first, false, NO_BINDS))
        else None
      case Stopping(c, next) =>
        if a.RuntimeStopped? && a.ok then Some(S.Reload(c, Some(next), u.first, true, NO_BINDS)) else None
      case Withdrawing(c) =>
        if a.TakeAnswer? then Some(S.Reload(c, Some(u.next), u.first, false, u.second)) else None
      case ExpiryStopping =>
        if a.RuntimeStopped? && !a.ok then Some(S.LeaseTimer(true, false, None, NO_BINDS)) else None
      case ExpiryReading =>
        if a.ReadConfig? && a.loaded.None? then Some(S.LeaseTimer(true, true, None, NO_BINDS)) else None
      case ExpiryOffering(next) => if a.TakeAnswer? then Some(S.LeaseTimer(true, true, Some(next), u.first)) else None
      case Finished => None
  }

  /** What the step decides of an event that goes on. */
  function Decides(s: C.System, a: C.Action, u: Underway): Underway {
    if C.Act(s, a) == s then u
    else if a.ServeUpdate? then if s.phase.Withdrawing? then u.(second := a.binds) else u.(first := a.binds)
    else if a.RuntimeStopped? && s.phase.Stopping? then u.(next := s.phase.next)
    else u
  }

  function Extended(r: S.History, mode: S.Mode, e: Option<S.Event>): S.History {
    if e.None? then r else S.Next(r, e.value, mode)
  }

  function ExtendedMode(r: S.History, mode: S.Mode, e: Option<S.Event>): S.Mode {
    if e.None? then mode else S.NextMode(S.Next(r, e.value, mode).state, e.value, mode)
  }

  ghost predicate StepTracked(r: S.History, mode: S.Mode, s: C.System, u: Underway, a: C.Action) {
    var e := Completes(s, a, u);
    Tracks(Extended(r, mode, e), ExtendedMode(r, mode, e), C.Act(s, a), Decides(s, a, u))
  }

  lemma NothingTracked(r: S.History, mode: S.Mode, s: C.System, u: Underway, a: C.Action)
    requires Tracks(r, mode, s, u) && C.Act(s, a) == s
    ensures StepTracked(r, mode, s, u, a)
  {
  }

  /** A step that completes nothing and leaves everything but the queue alone. */
  lemma QueueTracked(r: S.History, mode: S.Mode, s: C.System, u: Underway, q: C.Queue)
    requires Tracks(r, mode, s, u)
    ensures Tracks(r, mode, s.(queue := q), u)
  {
  }

  lemma ClientCompletesNothing(s: C.System, a: C.Action, u: Underway)
    requires C.ByClient(a)
    ensures Completes(s, a, u).None? && Decides(s, a, u) == u
    ensures C.Act(s, a) == s.(queue := C.Act(s, a).queue)
  {
  }

  lemma ServeTracked(r: S.History, mode: S.Mode, s: C.System, u: Underway, a: C.Action)
    requires Tracks(r, mode, s, u) && a.ServeUpdate? && s.update.Some? && C.ConfigsConsistent(s)
    ensures StepTracked(r, mode, s, u, a)
  {
  }

  lemma ReloadAnswerTracked(r: S.History, mode: S.Mode, s: C.System, u: Underway)
    requires C.ConfigsConsistent(s) && Tracks(r, mode, s, u) && s.answer.Some?
    requires s.phase.Offering? || s.phase.Withdrawing?
    ensures StepTracked(r, mode, s, u, C.TakeAnswer)
  {
  }

  lemma RestartAnswerTracked(r: S.History, mode: S.Mode, s: C.System, u: Underway)
    requires C.ConfigsConsistent(s) && Tracks(r, mode, s, u) && s.answer.Some?
    requires s.phase.Restoring? || s.phase.ExpiryOffering?
    ensures StepTracked(r, mode, s, u, C.TakeAnswer)
  {
  }

  lemma AnswerTracked(r: S.History, mode: S.Mode, s: C.System, u: Underway)
    requires C.ConfigsConsistent(s) && Tracks(r, mode, s, u) && s.answer.Some?
    ensures StepTracked(r, mode, s, u, C.TakeAnswer)
  {
    if s.phase.Offering? || s.phase.Withdrawing? {
      ReloadAnswerTracked(r, mode, s, u);
    } else if s.phase.Restoring? || s.phase.ExpiryOffering? {
      RestartAnswerTracked(r, mode, s, u);
    } else {
      NothingTracked(r, mode, s, u, C.TakeAnswer);
    }
  }

  lemma ReadTracked(r: S.History, mode: S.Mode, s: C.System, u: Underway, a: C.Action)
    requires C.ConfigsConsistent(s) && Tracks(r, mode, s, u)
    requires a.ReadConfig? && (s.phase.Reading? || s.phase.ExpiryReading?)
    ensures StepTracked(r, mode, s, u, a)
  {
  }

  lemma DequeueTracked(r: S.History, mode: S.Mode, s: C.System, u: Underway)
    requires Tracks(r, mode, s, u) && s.phase.Active?
    ensures StepTracked(r, mode, s, u, C.Dequeue)
  {
  }

  lemma StopTracked(r: S.History, mode: S.Mode, s: C.System, u: Underway, a: C.Action)
    requires C.ConfigsConsistent(s) && Tracks(r, mode, s, u)
    requires a.RuntimeStopped? && (s.phase.Stopping? || s.phase.ExpiryStopping?)
    ensures StepTracked(r, mode, s, u, a)
  {
  }

  lemma StartTracked(r: S.History, mode: S.Mode, s: C.System, u: Underway, a: C.Action)
    requires C.ConfigsConsistent(s) && Tracks(r, mode, s, u) && s.phase.Starting?
    requires a.RuntimeReady? || a.RuntimeFails? || a.Terminate?
    ensures StepTracked(r, mode, s, u, a)
  {
  }

  lemma ActiveTracked(r: S.History, mode: S.Mode, s: C.System, u: Underway, a: C.Action)
    requires Tracks(r, mode, s, u) && s.phase.Active? && (a.RuntimeCrashes? || a.LeaseExpires? || a.Terminate?)
    ensures StepTracked(r, mode, s, u, a)
  {
  }

  lemma ActTracked(r: S.History, mode: S.Mode, s: C.System, u: Underway, a: C.Action)
    requires C.ConfigsConsistent(s) && Tracks(r, mode, s, u)
    ensures StepTracked(r, mode, s, u, a)
  {
    if C.Act(s, a) == s {
      NothingTracked(r, mode, s, u, a);
    } else if C.ByClient(a) {
      ClientCompletesNothing(s, a, u);
      QueueTracked(r, mode, s, u, C.Act(s, a).queue);
    } else if a.ServeUpdate? {
      ServeTracked(r, mode, s, u, a);
    } else if a.TakeAnswer? {
      AnswerTracked(r, mode, s, u);
    } else if a.Dequeue? {
      DequeueTracked(r, mode, s, u);
    } else if a.ReadConfig? {
      ReadTracked(r, mode, s, u, a);
    } else if a.RuntimeStopped? {
      StopTracked(r, mode, s, u, a);
    } else if s.phase.Starting? {
      StartTracked(r, mode, s, u, a);
    } else {
      ActiveTracked(r, mode, s, u, a);
    }
  }

  /** The trace of events that a run completes. */
  ghost function Trace(r: S.History, mode: S.Mode, s: C.System, u: Underway, actions: seq<C.Action>): seq<S.Event>
    decreases |actions|
  {
    if actions == [] then []
    else
      var e := Completes(s, actions[0], u);
      (if e.None? then [] else [e.value]) +
      Trace(Extended(r, mode, e), ExtendedMode(r, mode, e), C.Act(s, actions[0]), Decides(s, actions[0], u),
            actions[1..])
  }

  ghost function Progress(s: C.System, u: Underway, actions: seq<C.Action>): Underway
    decreases |actions|
  {
    if actions == [] then u else Progress(C.Act(s, actions[0]), Decides(s, actions[0], u), actions[1..])
  }

  lemma OneEvent(r: S.History, mode: S.Mode, e: S.Event, rest: seq<S.Event>)
    requires !r.state.finished
    ensures S.Life(r, [e] + rest, mode) ==
              S.Life(S.Next(r, e, mode), rest, S.NextMode(S.Next(r, e, mode).state, e, mode))
    ensures S.ModeAfter(r, [e] + rest, mode) ==
            S.ModeAfter(S.Next(r, e, mode), rest, S.NextMode(S.Next(r, e, mode).state, e, mode))
  {
    assert ([e] + rest)[1..] == rest;
  }

  lemma {:induction false} RunTracked(r: S.History, mode: S.Mode, s: C.System, u: Underway, actions: seq<C.Action>)
    requires C.Inv(s) && Tracks(r, mode, s, u)
    ensures var trace := Trace(r, mode, s, u, actions);
            Tracks(S.Life(r, trace, mode), S.ModeAfter(r, trace, mode), C.Run(s, actions), Progress(s, u, actions))
    decreases |actions|
  {
    if actions != [] {
      var a := actions[0];
      var e := Completes(s, a, u);
      ActTracked(r, mode, s, u, a);
      C.ActKeeps(s, a);
      RunTracked(Extended(r, mode, e), ExtendedMode(r, mode, e), C.Act(s, a), Decides(s, a, u), actions[1..]);
      var rest := Trace(Extended(r, mode, e), ExtendedMode(r, mode, e), C.Act(s, a), Decides(s, a, u), actions[1..]);
      if e.Some? {
        OneEvent(r, mode, e.value, rest);
      } else {
        assert [] + rest == rest;
      }
    }
  }

  /**
   Refinement: for every interleaving there is a trace whose life ends where the
   interleaving does. While it is starting or active, the supervisor's configurations,
   pending reload, recovery and listeners are those of that life; it has returned exactly when that life
   has ended; and as many replies were sent.
   */
  lemma SupervisorRefined(initial: Config, actions: seq<C.Action>)
    ensures exists trace ::
              var s, r := C.Run(C.Start(initial), actions), S.Life(S.Begin(initial), trace, S.Starting);
              && |r.state.replies| == s.served
              && (s.phase.Finished? <==> r.state.finished)
              && (s.phase.Starting? || s.phase.Active? ==> Core(r.state, s) && Same(r.state, s))
              && (s.phase.Active? ==> S.ModeAfter(S.Begin(initial), trace, S.Starting).Active?)
  {
    var u := Underway(initial, NO_BINDS, NO_BINDS);
    RunTracked(S.Begin(initial), S.Starting, C.Start(initial), u, actions);
    var trace := Trace(S.Begin(initial), S.Starting, C.Start(initial), u, actions);
    assert Tracks(S.Life(S.Begin(initial), trace, S.Starting), S.ModeAfter(S.Begin(initial), trace, S.Starting),
                  C.Run(C.Start(initial), actions), Progress(C.Start(initial), u, actions));
  }
}
