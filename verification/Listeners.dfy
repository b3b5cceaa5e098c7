/**
 The authority's enrollment listeners: the addresses a configuration asks for, the
 replacement of one listener set by another, and the handover in which the old set
 has to be closed before the new one can be bound.
 */
module Listeners {

  // ---------------------------------------------------------------- addresses

  datatype Socket = Socket(v6: bool, host: nat, port: nat)

  /** The parts of a daemon configuration that the supervisor and the listeners look at. */
  datatype Config = Config(revision: nat, enrollment: bool, bind: Socket)

  predicate Unspecified(socket: Socket) {
    socket.host == 0
  }

  function EnrollmentBindAddresses(bind: Socket): seq<Socket> {
    if !Unspecified(bind) then [bind]
    else if bind.v6 then [Socket(false, 0, bind.port), bind]
    else [bind, Socket(true, 0, bind.port)]
  }

  function ListenerAddresses(config: Config): seq<Socket> {
    if config.enrollment then EnrollmentBindAddresses(config.bind) else []
  }

  /**
   A wildcard bind of either family asks for the same two sockets, one of each
   family; anything else asks for itself; and no configuration asks for more than two.
   */
  lemma WildcardsAgree(config: Config)
    ensures |ListenerAddresses(config)| <= 2
    ensures config.enrollment && Unspecified(config.bind) ==>
              forall v6 :: ListenerAddresses(config) == ListenerAddresses(config.(bind := config.bind.(v6 := v6)))
    ensures forall s :: s in ListenerAddresses(config) <==>
              config.enrollment && s.port == config.bind.port && s.host == config.bind.host
              && (s.v6 == config.bind.v6 || Unspecified(config.bind))
  {
    forall s
      ensures s in ListenerAddresses(config) <==>
              config.enrollment && s.port == config.bind.port && s.host == config.bind.host
              && (s.v6 == config.bind.v6 || Unspecified(config.bind))
    {
      assert s == Socket(s.v6, s.host, s.port);
    }
  }

  // -------------------------------------------------------------- replacement

  datatype BindResult = Bound | InUse | Refused

  /** One attempt to bind a set, and whether its sockets then report their addresses. */
  datatype Attempt = Attempt(result: BindResult, reported: bool)

  /** What the system answers: to the first bind, to the bind after closing, to the restoring bind. */
  datatype Binds = Binds(first: Attempt, handover: Attempt, restore: Attempt)

  /** The empty set needs no socket. */
  function Outcome(addresses: seq<Socket>, attempt: Attempt): BindResult {
    if addresses == [] then Bound else attempt.result
  }

  predicate Installs(addresses: seq<Socket>, attempt: Attempt) {
    addresses == [] || (attempt.result.Bound? && attempt.reported)
  }

  datatype Listeners = Listeners(addresses: seq<Socket>, open: seq<Socket>)

  predicate Healthy(l: Listeners) {
    l.open == l.addresses
  }

  /** The set ends as the one asked for. */
  predicate Accepts(l: Listeners, next: seq<Socket>, binds: Binds) {
    || next == l.addresses
    || Installs(next, binds.first)
    || (Outcome(next, binds.first).InUse? && Installs(next, binds.handover))
  }

  /** The old set was closed for a handover and neither set could be installed. */
  predicate LosesBoth(l: Listeners, next: seq<Socket>, binds: Binds) {
    && next != l.addresses
    && Outcome(next, binds.first).InUse?
    && !Installs(next, binds.handover)
    && (Outcome(next, binds.handover).Bound? || !Installs(l.addresses, binds.restore))
  }

  function Reconciled(l: Listeners, next: seq<Socket>, binds: Binds): Listeners {
    if next == l.addresses then l
    else if Accepts(l, next, binds) then Listeners(next, next)
    else if LosesBoth(l, next, binds) then l.(open := [])
    else if Outcome(next, binds.first).InUse? then Listeners(l.addresses, l.addresses)
    else l
  }

  class ListenerSet {
    var addresses: seq<Socket>
    var listeners: seq<Socket>

    ghost function View(): Listeners
      reads this
    {
      Listeners(addresses, listeners)
    }

    constructor (config: Config)
      ensures View() == Listeners(ListenerAddresses(config), ListenerAddresses(config))
    {
      addresses, listeners := ListenerAddresses(config), ListenerAddresses(config);
    }

    method Install(next: seq<Socket>, attempt: Attempt) returns (ok: bool)
      requires Outcome(next, attempt).Bound?
      modifies this
      ensures ok == Installs(next, attempt)
      ensures View() == if ok then Listeners(next, next) else old(View())
    {
      if next != [] && !attempt.reported {
        return false;
      }
      addresses, listeners := next, next;
      ok := true;
    }

    method Reconcile(next: seq<Socket>, binds: Binds) returns (ok: bool)
      modifies this
      ensures ok == Accepts(old(View()), next, binds)
      ensures View() == Reconciled(old(View()), next, binds)
    {
      if next == addresses {
        return true;
      }
      match Outcome(next, binds.first)
      case Bound => ok := Install(next, binds.first);
      case Refused => ok := false;
      case InUse =>
        var previous := addresses;
        listeners := [];
        if Outcome(next, binds.handover).Bound? {
          ok := Install(next, binds.handover);
        } else {
          if Outcome(previous, binds.restore).Bound? {
            var restored := Install(previous, binds.restore);
          }
          ok := false;
        }
    }
  }

  /** The task that owns the listeners; its configuration moves only with a successful update. */
  class ListenerServer {
    var activeConfig: Config
    const listenerSet: ListenerSet

    ghost predicate Valid()
      reads this, listenerSet
    {
      listenerSet.addresses == ListenerAddresses(activeConfig)
    }

    constructor (config: Config)
      ensures Valid() && fresh(listenerSet) && activeConfig == config && Healthy(listenerSet.View())
    {
      activeConfig := config;
      listenerSet := new ListenerSet(config);
    }

    method Reconcile(config: Config, binds: Binds) returns (ok: bool)
      requires Valid()
      modifies this, listenerSet
      ensures Valid()
      ensures ok == Accepts(old(listenerSet.View()), ListenerAddresses(config), binds)
      ensures listenerSet.View() == Reconciled(old(listenerSet.View()), ListenerAddresses(config), binds)
      ensures activeConfig == if ok then config else old(activeConfig)
    {
      ok := listenerSet.Reconcile(ListenerAddresses(config), binds);
      if ok {
        activeConfig := config;
      }
    }
  }

  /**
   One commit boundary: an accepted update leaves exactly the asked-for addresses
   and a rejected one the old addresses; a healthy set stays healthy if and only if
   the handover did not lose both sets.
   */
  lemma ReconcileAllOrNothing(l: Listeners, next: seq<Socket>, binds: Binds)
    requires Healthy(l)
    ensures Reconciled(l, next, binds).addresses == if Accepts(l, next, binds) then next else l.addresses
    ensures Healthy(Reconciled(l, next, binds)) <==> !(l.addresses != [] && LosesBoth(l, next, binds))
    ensures var after := Reconciled(l, next, binds);
            after.open == after.addresses || after.open == []
  {
  }

  /**
   A lost set is not repaired by asking for the same addresses again: the update is
   acknowledged and nothing is listening.
   */
  lemma LossIsSilent(l: Listeners, next: seq<Socket>, binds: Binds, again: Binds)
    requires Healthy(l) && l.addresses != [] && LosesBoth(l, next, binds)
    ensures var lost := Reconciled(l, next, binds);
            && Accepts(lost, l.addresses, again)
            && Reconciled(lost, l.addresses, again) == Listeners(l.addresses, [])
  {
  }

  /**
   A wildcard set on port 4000 moves to one address: the new bind is refused because the
   wildcard is still bound, refused again after closing it, and the wildcard cannot be
   bound again. Nothing listens, and asking for the wildcard again changes nothing.
   */
  lemma WildcardIsLost(again: Binds)
    ensures var wildcard := ListenerAddresses(Config(1, true, Socket(false, 0, 4000)));
            var specific := ListenerAddresses(Config(2, true, Socket(false, 1, 4000)));
            var binds := Binds(Attempt(InUse, false), Attempt(Refused, false), Attempt(Refused, false));
            var l := Listeners(wildcard, wildcard);
            && |l.open| == 2 && !Accepts(l, specific, binds)
            && Reconciled(l, specific, binds) == Listeners(wildcard, [])
            && Accepts(Reconciled(l, specific, binds), wildcard, again)
            && Reconciled(Reconciled(l, specific, binds), wildcard, again).open == []
  {
    var wildcard := ListenerAddresses(Config(1, true, Socket(false, 0, 4000)));
    var specific := ListenerAddresses(Config(2, true, Socket(false, 1, 4000)));
    assert |wildcard| == 2 && |specific| == 1;
    LossIsSilent(Listeners(wildcard, wildcard), specific,
                 Binds(Attempt(InUse, false), Attempt(Refused, false), Attempt(Refused, false)), again);
  }
}
