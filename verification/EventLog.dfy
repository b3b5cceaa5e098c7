/**
 The bounded replay log of extension events and the loop that streams it to a
 watcher. Publishers push under the log's lock and wake watchers afterwards;
 watchers register for a wake-up, read, deliver, and only then wait.
 */
module EventLog {
  import opened Outcomes

  const EVENT_HISTORY_LIMIT: nat := 1024

  datatype Event = Event(cursor: nat, kind: string)

  /** The log's state under its lock. */
  datatype Log = Log(nextCursor: nat, events: seq<Event>)

  datatype Reading = Pending(events: seq<Event>) | CursorInvalid | CursorExpired

  // ------------------------------------------------------ the unbounded history

  /** Everything ever published: event number `i` carries cursor `i + 1`. */
  ghost predicate Numbered(history: seq<Event>) {
    forall i :: 0 <= i < |history| ==> history[i].cursor == i + 1
  }

  function Retained(history: seq<Event>): seq<Event> {
    if |history| <= EVENT_HISTORY_LIMIT then history else history[|history| - EVENT_HISTORY_LIMIT..]
  }

  ghost predicate Agrees(log: Log, history: seq<Event>) {
    Numbered(history) && |history| < U64_MAX && log == Log(|history|, Retained(history))
  }

  /** The next event after `cursor` was published and is no longer kept. */
  ghost predicate NextEvicted(history: seq<Event>, cursor: nat) {
    cursor < |history| && history[cursor] !in Retained(history)
  }

  /** What a reader at `cursor` has to get, said with the history alone. */
  ghost function Owed(history: seq<Event>, cursor: nat): Reading {
    if cursor > |history| then CursorInvalid
    else if NextEvicted(history, cursor) then CursorExpired
    else Pending(history[cursor..])
  }

  // ------------------------------------------------------------------ the log

  function Publish(log: Log, kind: string): Log {
    var cursor := SaturatingAdd(log.nextCursor, 1);
    var events := log.events + [Event(cursor, kind)];
    Log(cursor, if |events| > EVENT_HISTORY_LIMIT then events[1..] else events)
  }

  function Oldest(log: Log): nat {
    if log.events == [] then SaturatingAdd(log.nextCursor, 1) else log.events[0].cursor
  }

  function Newer(events: seq<Event>, cursor: nat): seq<Event> {
    if events == [] then []
    else if events[0].cursor > cursor then [events[0]] + Newer(events[1..], cursor)
    else Newer(events[1..], cursor)
  }

  function After(log: Log, cursor: nat): Reading {
    if cursor > log.nextCursor then CursorInvalid
    else if SaturatingAdd(cursor, 1) < Oldest(log) then CursorExpired
    else Pending(Newer(log.events, cursor))
  }

  method Collect(events: seq<Event>, cursor: nat) returns (newer: seq<Event>)
    ensures newer == Newer(events, cursor)
  {
    newer := [];
    var k := 0;
    while k < |events|
      invariant k <= |events|
      invariant Newer(events, cursor) == newer + Newer(events[k..], cursor)
    {
      assert events[k..][1..] == events[k + 1..];
      if events[k].cursor > cursor {
        newer := newer + [events[k]];
      }
      k := k + 1;
    }
  }

  class EventLog {
    var nextCursor: nat
    var events: seq<Event>
    ghost var history: seq<Event>

    ghost predicate Valid()
      reads this
    {
      Agrees(View(), history)
    }

    ghost function View(): Log
      reads this
    {
      Log(nextCursor, events)
    }

    constructor ()
      ensures Valid() && history == []
    {
      nextCursor, events, history := 0, [], [];
    }

    method PublishEvent(kind: string) returns (event: Event)
      requires Valid() && |history| + 1 < U64_MAX
      modifies this
      ensures Valid()
      ensures event == Event(|old(history)| + 1, kind) && history == old(history) + [event]
      ensures View() == Publish(old(View()), kind)
    {
      PublishAgrees(View(), history, kind);
      nextCursor := SaturatingAdd(nextCursor, 1);
      event := Event(nextCursor, kind);
      events := events + [event];
      if |events| > EVENT_HISTORY_LIMIT {
        events := events[1..];
      }
      history := history + [event];
    }

    method Bounds() returns (current: nat, oldest: nat)
      requires Valid()
      ensures current == |history|
      ensures oldest == |history| - |Retained(history)| + 1
    {
      current := nextCursor;
      oldest := if events == [] then SaturatingAdd(nextCursor, 1) else events[0].cursor;
    }

    /** The bounded log answers every cursor as the whole history would. */
    method ReadAfter(cursor: nat) returns (reading: Reading)
      requires Valid()
      ensures reading == Owed(history, cursor)
    {
      AfterIsOwed(View(), history, cursor);
      if cursor > nextCursor {
        return CursorInvalid;
      }
      var oldest := if events == [] then SaturatingAdd(nextCursor, 1) else events[0].cursor;
      if SaturatingAdd(cursor, 1) < oldest {
        return CursorExpired;
      }
      var newer := Collect(events, cursor);
      reading := Pending(newer);
    }
  }

  lemma PublishAgrees(log: Log, history: seq<Event>, kind: string)
    requires Agrees(log, history) && |history| + 1 < U64_MAX
    ensures Agrees(Publish(log, kind), history + [Event(|history| + 1, kind)])
  {
  }

  lemma {:induction false} NewerIsSuffix(events: seq<Event>, first: nat, cursor: nat)
    requires forall i :: 0 <= i < |events| ==> events[i].cursor == first + i + 1
    requires first <= cursor <= first + |events|
    ensures Newer(events, cursor) == events[cursor - first..]
  {
    if events != [] {
      if first < cursor {
        NewerIsSuffix(events[1..], first + 1, cursor);
      } else {
        AllNewer(events, cursor);
      }
    }
  }

  lemma {:induction false} AllNewer(events: seq<Event>, cursor: nat)
    requires forall i :: 0 <= i < |events| ==> events[i].cursor > cursor
    ensures Newer(events, cursor) == events
  {
    if events != [] {
      AllNewer(events[1..], cursor);
    }
  }

  lemma EvictedExactly(history: seq<Event>, cursor: nat)
    requires Numbered(history) && cursor <= |history|
    ensures NextEvicted(history, cursor) <==> cursor < |history| - |Retained(history)|
  {
    var base := |history| - |Retained(history)|;
    assert Retained(history) == history[base..];
    if base <= cursor < |history| {
      assert Retained(history)[cursor - base] == history[cursor];
    }
  }

  /** The bounded log agrees with the unbounded history on every cursor. */
  lemma AfterIsOwed(log: Log, history: seq<Event>, cursor: nat)
    requires Agrees(log, history)
    ensures After(log, cursor) == Owed(history, cursor)
  {
    if cursor <= |history| {
      EvictedExactly(history, cursor);
      var base := |history| - |Retained(history)|;
      assert Retained(history) == history[base..];
      if base <= cursor {
        NewerIsSuffix(log.events, base, cursor);
        assert log.events[cursor - base..] == history[cursor..];
      }
    }
  }

  // ------------------------------------------------- publishers and watchers

  datatype Phase =
    | Opening                          // about to check its first cursor
    | Registering                      // about to create its wake-up
    | Reading                          // about to read
    | Sending(pending: seq<Event>)     // delivering what it read
    | Waiting                          // for its wake-up
    | Refused(invalid: bool)           // told that its cursor is invalid or expired

  datatype Watcher = Watcher(start: nat, cursor: nat, registered: nat, phase: Phase, delivered: seq<Event>)

  type WatcherId = nat

  datatype System = System(
    log: Log,
    history: seq<Event>,
    notifications: nat,             // completed wake-up calls
    unnotified: set<nat>,           // cursors pushed whose wake-up call is still to come
    watchers: map<WatcherId, Watcher>
  )

  function Start(): System {
    System(Log(0, []), [], 0, {}, map[])
  }

  datatype Action =
    | Push(kind: string)
    | Notify(cursor: nat)
    | Open(watcher: WatcherId, after: Option<nat>)
    | Check(watcher: WatcherId)
    | Register(watcher: WatcherId)
    | Read(watcher: WatcherId)
    | Send(watcher: WatcherId)
    | Wake(watcher: WatcherId)

  function Refusal(reading: Reading): Phase
    requires !reading.Pending?
  {
    Refused(reading.CursorInvalid?)
  }

  function WatcherActs(s: System, w: Watcher, a: Action): Watcher {
    match a
    case Check(_) =>
      if !w.phase.Opening? then w
      else
        var reading := After(s.log, w.cursor);
        w.(phase := if reading.Pending? then Registering else Refusal(reading))
    case Register(_) =>
      if !w.phase.Registering? then w else w.(registered := s.notifications, phase := Reading)
    case Read(_) =>
      if !w.phase.Reading? then w
      else
        var reading := After(s.log, w.cursor);
        w.(phase := if !reading.Pending? then Refusal(reading)
                    else if reading.events == [] then Waiting
                    else Sending(reading.events))
    case Send(_) =>
      if !w.phase.Sending? || w.phase.pending == [] then w
      else
        var event, rest := w.phase.pending[0], w.phase.pending[1..];
        w.(cursor := event.cursor, delivered := w.delivered + [event],
           phase := if rest == [] then Waiting else Sending(rest))
    case Wake(_) =>
      if w.phase.Waiting? && w.registered < s.notifications then w.(phase := Registering) else w
    case _ => w
  }

  function Act(s: System, a: Action): System {
    match a
    case Push(kind) =>
      if |s.history| + 1 >= U64_MAX then s
      else
        var event := Event(|s.history| + 1, kind);
        s.(log := Publish(s.log, kind), history := s.history + [event], unnotified := s.unnotified + {event.cursor})
    case Notify(cursor) =>
      if cursor !in s.unnotified then s
      else s.(notifications := s.notifications + 1, unnotified := s.unnotified - {cursor})
    case Open(id, after) =>
      if id in s.watchers then s
      else
        var cursor := if after.Some? then after.value else s.log.nextCursor;
        s.(watchers := s.watchers[id := Watcher(cursor, cursor, 0, Opening, [])])
    case _ =>
      if a.watcher !in s.watchers then s
      else s.(watchers := s.watchers[a.watcher := WatcherActs(s, s.watchers[a.watcher], a)])
  }

  function Run(s: System, actions: seq<Action>): System
    decreases |actions|
  {
    if actions == [] then s else Run(Act(s, actions[0]), actions[1..])
  }

  /** The cursor up to which the watcher has read. */
  function ReadUpTo(w: Watcher): nat {
    w.cursor + if w.phase.Sending? then |w.phase.pending| else 0
  }

  ghost predicate WatcherTrue(s: System, w: Watcher) {
    && w.registered <= s.notifications
    && (w.phase.Opening? || w.phase.Refused? || w.cursor <= |s.history|)
    && (w.cursor <= |s.history| ==> w.start <= w.cursor && w.delivered == s.history[w.start..w.cursor])
    && (w.cursor > |s.history| ==> w.start == w.cursor && w.delivered == [])
    && (w.phase.Sending? ==> ReadUpTo(w) <= |s.history| && w.phase.pending == s.history[w.cursor..ReadUpTo(w)])
    && ((w.phase.Waiting? || w.phase.Sending?) && w.registered == s.notifications ==>
          forall k :: ReadUpTo(w) < k <= |s.history| ==> k in s.unnotified)
  }

  ghost predicate Inv(s: System) {
    && Agrees(s.log, s.history)
    && forall id :: id in s.watchers ==> WatcherTrue(s, s.watchers[id])
  }

  /** Handing over the first event of a stretch moves the boundary between sent and pending by one. */
  lemma OneMore(history: seq<Event>, start: nat, cursor: nat, end: nat)
    requires start <= cursor < end <= |history|
    ensures history[cursor..end][0] == history[cursor]
    ensures history[cursor..end][1..] == history[cursor + 1..end]
    ensures history[start..cursor] + [history[cursor]] == history[start..cursor + 1]
  {
  }

  lemma SendKeeps(s: System, w: Watcher, a: Action)
    requires Numbered(s.history) && WatcherTrue(s, w) && a.Send?
    ensures WatcherTrue(s, WatcherActs(s, w, a))
  {
    if w.phase.Sending? && w.phase.pending != [] {
      OneMore(s.history, w.start, w.cursor, ReadUpTo(w));
      assert WatcherActs(s, w, a).cursor == w.cursor + 1;
    }
  }

  lemma ReadKeeps(s: System, w: Watcher, a: Action)
    requires Agrees(s.log, s.history) && WatcherTrue(s, w) && a.Read?
    ensures WatcherTrue(s, WatcherActs(s, w, a))
  {
    if w.phase.Reading? {
      AfterIsOwed(s.log, s.history, w.cursor);
      assert s.history[w.cursor..] == s.history[w.cursor..|s.history|];
    }
  }

  lemma WatcherKeeps(s: System, w: Watcher, a: Action)
    requires Agrees(s.log, s.history) && WatcherTrue(s, w)
    ensures WatcherTrue(s, WatcherActs(s, w, a))
  {
    if a.Read? {
      ReadKeeps(s, w, a);
    } else if a.Send? {
      SendKeeps(s, w, a);
    } else if a.Check? {
      AfterIsOwed(s.log, s.history, w.cursor);
    }
  }

  lemma PushKeeps(s: System, kind: string, w: Watcher)
    requires Inv(s) && WatcherTrue(s, w)
    ensures WatcherTrue(Act(s, Push(kind)), w)
  {
    var t := Act(s, Push(kind));
    if w.cursor <= |s.history| {
      assert t.history[w.start..w.cursor] == s.history[w.start..w.cursor];
    }
  }

  lemma NotifyKeeps(s: System, cursor: nat, w: Watcher)
    requires WatcherTrue(s, w)
    ensures WatcherTrue(Act(s, Notify(cursor)), w)
  {
  }

  lemma OthersKeep(s: System, t: System, w: Watcher)
    requires t == s.(watchers := t.watchers) && WatcherTrue(s, w)
    ensures WatcherTrue(t, w)
  {
  }

  lemma EachKeeps(s: System, a: Action, id: WatcherId)
    requires Inv(s) && id in Act(s, a).watchers
    ensures WatcherTrue(Act(s, a), Act(s, a).watchers[id])
  {
    var t := Act(s, a);
    if id in s.watchers {
      var w := s.watchers[id];
      if a.Push? {
        PushKeeps(s, a.kind, w);
      } else if a.Notify? {
        NotifyKeeps(s, a.cursor, w);
      } else {
        WatcherKeeps(s, w, a);
        OthersKeep(s, t, t.watchers[id]);
      }
    }
  }

  lemma ActKeeps(s: System, a: Action)
    requires Inv(s)
    ensures Inv(Act(s, a))
  {
    var t := Act(s, a);
    if a.Push? && |s.history| + 1 < U64_MAX {
      PublishAgrees(s.log, s.history, a.kind);
    }
    forall id | id in t.watchers
      ensures WatcherTrue(t, t.watchers[id])
    {
      EachKeeps(s, a, id);
    }
  }

  lemma {:induction false} RunKeeps(s: System, actions: seq<Action>)
    requires Inv(s)
    ensures Inv(Run(s, actions))
    decreases |actions|
  {
    if actions != [] {
      ActKeeps(s, actions[0]);
      RunKeeps(Act(s, actions[0]), actions[1..]);
    }
  }

  /**
   Soundness under every interleaving: what a watcher has been sent is the run of
   the full history between its start and its cursor, without gap or repetition; a
   watcher that waits with events outstanding has a wake-up due or a publisher about
   to give one, so with no publisher in between it has been sent everything.
   */
  lemma WatcherSound(actions: seq<Action>, id: WatcherId)
    ensures var s := Run(Start(), actions);
            id in s.watchers ==>
              var w := s.watchers[id];
              && (w.start <= |s.history| ==>
                  w.start <= w.cursor <= |s.history| && w.delivered == s.history[w.start..w.cursor])
              && (w.start > |s.history| ==> w.delivered == [])
              && (w.phase.Waiting? && w.cursor < |s.history| ==>
                    Act(s, Wake(id)) != s || w.cursor + 1 in s.unnotified)
              && (w.phase.Waiting? && Act(s, Wake(id)) == s && s.unnotified == {} ==>
                    w.start <= |s.history| && w.delivered == s.history[w.start..])
  {
    RunKeeps(Start(), actions);
    var s := Run(Start(), actions);
    if id in s.watchers {
      assert WatcherTrue(s, s.watchers[id]);
      if s.watchers[id].phase.Waiting? {
        WaitingIsDue(s, id);
      }
    }
  }

  lemma WaitingIsDue(s: System, id: WatcherId)
    requires Inv(s) && id in s.watchers && s.watchers[id].phase.Waiting?
    ensures var w := s.watchers[id];
            && (w.registered < s.notifications ==> Act(s, Wake(id)) != s)
            && (w.registered == s.notifications && w.cursor < |s.history| ==> w.cursor + 1 in s.unnotified)
  {
    var w := s.watchers[id];
    assert WatcherTrue(s, w);
    if w.registered < s.notifications {
      assert Act(s, Wake(id)).watchers[id].phase.Registering?;
    }
  }

  /**
   Exact expiry: in every reachable state, a watcher that reads is told its cursor
   expired if and only if its next event has been evicted, and otherwise is handed
   everything published after its cursor.
   */
  lemma ReadExactly(actions: seq<Action>, id: WatcherId)
    ensures var s := Run(Start(), actions);
            id in s.watchers && s.watchers[id].phase.Reading? ==>
              var w, after := s.watchers[id], Act(s, Read(id)).watchers[id];
              && (after.phase == Refused(false) <==> NextEvicted(s.history, w.cursor))
              && after.phase != Refused(true)
              && (after.phase.Waiting? <==> w.cursor == |s.history|)
              && (after.phase.Sending? ==> w.cursor < |s.history| && after.phase.pending == s.history[w.cursor..])
  {
    RunKeeps(Start(), actions);
    var s := Run(Start(), actions);
    if id in s.watchers && s.watchers[id].phase.Reading? {
      var w := s.watchers[id];
      assert WatcherTrue(s, w);
      AfterIsOwed(s.log, s.history, w.cursor);
      assert Act(s, Read(id)).watchers[id] == WatcherActs(s, w, Read(id));
    }
  }
}
