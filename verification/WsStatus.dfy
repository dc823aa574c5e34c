/** A server-owned signal mirrored by the client: what each event does to the service's fields. */
module WsStatus {
  import opened Common

  type Listener = nat
  type SocketId = nat

  /** What a fetch remembers of the counters when it is issued. */
  datatype Ticket = Ticket(number: nat, generation: nat)

  /**
   The fields, the number of sockets made so far, what each listener was last told, and whether
   there is a browser window to schedule a reconnect in.
   */
  datatype View<T> = View(
    current: Option<T>, listeners: set<Listener>, socket: Option<SocketId>, reconnect: bool,
    fetchSeq: nat, generation: nat, made: nat, told: map<Listener, T>, window: bool)

  function Broadcast<T>(listeners: set<Listener>, told: map<Listener, T>, state: T): map<Listener, T> {
    told + map l | l in listeners :: state
  }

  lemma OneMoreTold<T>(listeners: set<Listener>, told: map<Listener, T>, l: Listener, state: T)
    ensures Broadcast(listeners + {l}, told, state) == Broadcast(listeners, told, state)[l := state]
  {
  }

  function Updated<T>(v: View<T>, state: T): View<T> {
    v.(current := Some(state), told := Broadcast(v.listeners, v.told, state))
  }

  function EnsuredSocket<T>(v: View<T>): View<T> {
    if v.socket.Some? || v.listeners == {} then v else v.(socket := Some(v.made), made := v.made + 1)
  }

  function Issued<T>(v: View<T>): (View<T>, Ticket) {
    (v.(fetchSeq := v.fetchSeq + 1), Ticket(v.fetchSeq + 1, v.generation))
  }

  /** Still the newest fetch, and no authoritative update landed since it was issued. */
  predicate Applies<T>(v: View<T>, t: Ticket) {
    t.number == v.fetchSeq && t.generation == v.generation
  }

  function Settled<T>(v: View<T>, t: Ticket, state: T): View<T> {
    if Applies(v, t) then Updated(v, state) else v
  }

  function Authoritative<T>(v: View<T>, state: T): View<T> {
    Updated(v.(generation := v.generation + 1), state)
  }

  /** A new listener is told the cached state, or a fetch is issued when there is none. */
  function Subscribed<T>(v: View<T>, l: Listener): (View<T>, Option<Ticket>) {
    var joined := v.(listeners := v.listeners + {l});
    match v.current
    case Some(state) => (EnsuredSocket(joined.(told := joined.told[l := state])), None)
    case None =>
      var (next, ticket) := Issued(joined);
      (EnsuredSocket(next), Some(ticket))
  }

  function TornDown<T>(v: View<T>): View<T> {
    v.(reconnect := false, socket := None, fetchSeq := v.fetchSeq + 1, current := None)
  }

  function Unsubscribed<T>(v: View<T>, l: Listener): View<T> {
    var left := v.(listeners := v.listeners - {l});
    if left.listeners != {} then left else TornDown(left)
  }

  /** A close report counts only for the socket in use. */
  function Closed<T>(v: View<T>, id: SocketId): View<T> {
    if v.socket != Some(id) then v
    else v.(socket := None, reconnect := v.reconnect || (v.listeners != {} && v.window))
  }

  function Retried<T>(v: View<T>): View<T> {
    EnsuredSocket(v.(reconnect := false))
  }

  class WsStatusService<T> {
    var currentStatus: Option<T>
    var listeners: set<Listener>
    var socket: Option<SocketId>
    var reconnect: bool
    var fetchSeq: nat
    var stateGeneration: nat
    var made: nat
    var told: map<Listener, T>
    const window: bool

    constructor (window: bool)
      ensures Fields() == View(None, {}, None, false, 0, 0, 0, map[], window)
    {
      this.window := window;
      currentStatus, listeners, socket, reconnect := None, {}, None, false;
      fetchSeq, stateGeneration, made, told := 0, 0, 0, map[];
    }

    ghost function Fields(): View<T>
      reads this
    {
      View(currentStatus, listeners, socket, reconnect, fetchSeq, stateGeneration, made, told, window)
    }

    method UpdateStatus(state: T)
      modifies `currentStatus, `told
      ensures Fields() == Updated(old(Fields()), state)
      ensures currentStatus == Some(state)
      ensures forall l :: l in told <==> l in old(told) || l in listeners
      ensures forall l :: l in told ==> told[l] == if l in listeners then state else old(told)[l]
    {
      currentStatus := Some(state);
      var rest := listeners;
      while rest != {}
        invariant rest <= listeners && currentStatus == Some(state)
        invariant told == Broadcast(listeners - rest, old(told), state)
        decreases |rest|
      {
        var l :| l in rest;
        told := told[l := state];
        assert listeners - (rest - {l}) == (listeners - rest) + {l};
        OneMoreTold(listeners - rest, old(told), l, state);
        hide Broadcast;
        rest := rest - {l};
      }
      assert listeners - {} == listeners;
    }

    method EnsureSocket()
      modifies `socket, `made
      ensures Fields() == EnsuredSocket(old(Fields()))
      ensures (socket, made) ==
        if old(socket).None? && listeners != {} then (Some(old(made)), old(made) + 1) else old((socket, made))
    {
      if socket.Some? || listeners == {} {
        return;
      }
      socket := Some(made);
      made := made + 1;
    }

    /** The first half of a fetch: numbered before the request leaves. */
    method IssueFetch() returns (ticket: Ticket)
      modifies `fetchSeq
      ensures (Fields(), ticket) == Issued(old(Fields()))
      ensures ticket == Ticket(fetchSeq, stateGeneration) && fetchSeq == old(fetchSeq) + 1
    {
      fetchSeq := fetchSeq + 1;
      return Ticket(fetchSeq, stateGeneration);
    }

    /** The second half: the answer is applied, or dropped in favour of the state that won. */
    method SettleFetch(ticket: Ticket, state: T) returns (answer: T)
      modifies `currentStatus, `told
      ensures Fields() == Settled(old(Fields()), ticket, state)
      ensures currentStatus ==
        if ticket.number == fetchSeq && ticket.generation == stateGeneration then Some(state) else old(currentStatus)
      ensures answer ==
        if Applies(old(Fields()), ticket) || old(currentStatus).None? then state else old(currentStatus).value
    {
      if ticket.number != fetchSeq || ticket.generation != stateGeneration {
        return if currentStatus.Some? then currentStatus.value else state;
      }
      UpdateStatus(state);
      return state;
    }

    method Subscribe(l: Listener) returns (ticket: Option<Ticket>)
      modifies `listeners, `fetchSeq, `told, `socket, `made
      ensures (Fields(), ticket) == Subscribed(old(Fields()), l)
      ensures listeners == old(listeners) + {l}
      ensures ticket == if currentStatus.None? then Some(Ticket(old(fetchSeq) + 1, stateGeneration)) else None
      ensures fetchSeq == old(fetchSeq) + if currentStatus.None? then 1 else 0
      ensures told == if currentStatus.Some? then old(told)[l := currentStatus.value] else old(told)
      ensures socket == if old(socket).Some? then old(socket) else Some(old(made))
    {
      listeners := listeners + {l};
      ticket := None;
      if currentStatus.None? {
        var issued := IssueFetch();
        ticket := Some(issued);
      } else {
        told := told[l := currentStatus.value];
      }
      EnsureSocket();
    }

    method Unsubscribe(l: Listener)
      modifies this
      ensures Fields() == Unsubscribed(old(Fields()), l)
      ensures listeners == old(listeners) - {l}
      ensures listeners != {} ==> Fields() == old(Fields()).(listeners := listeners)
      ensures listeners == {} ==> socket.None? && !reconnect && currentStatus.None? && fetchSeq == old(fetchSeq) + 1
    {
      listeners := listeners - {l};
      if listeners != {} {
        return;
      }
      TeardownSocket();
    }

    /** No fetch issued so far will be applied. */
    method TeardownSocket()
      modifies `reconnect, `socket, `fetchSeq, `currentStatus
      ensures Fields() == TornDown(old(Fields()))
      ensures !reconnect && socket.None? && currentStatus.None? && fetchSeq == old(fetchSeq) + 1
      ensures forall t: Ticket :: t.number <= old(fetchSeq) ==> !Applies(Fields(), t)
    {
      reconnect := false;
      socket := None;
      fetchSeq := fetchSeq + 1;
      currentStatus := None;
    }

    /** Every listener hears of it, and no fetch issued so far will be applied. */
    method ApplyAuthoritative(state: T)
      modifies `stateGeneration, `currentStatus, `told
      ensures Fields() == Authoritative(old(Fields()), state)
      ensures currentStatus == Some(state) && stateGeneration == old(stateGeneration) + 1
      ensures forall l :: l in listeners ==> l in told && told[l] == state
      ensures forall t: Ticket :: t.generation <= old(stateGeneration) ==> !Applies(Fields(), t)
    {
      stateGeneration := stateGeneration + 1;
      UpdateStatus(state);
    }

    /** A frame of another signal changes nothing, so it cannot invalidate a fetch in flight. */
    method OnMessage(parsed: Option<T>)
      modifies this
      ensures Fields() ==
        match parsed case Some(state) => Authoritative(old(Fields()), state) case None => old(Fields())
    {
      if parsed.Some? {
        ApplyAuthoritative(parsed.value);
      }
    }

    method OnClose(id: SocketId)
      modifies `socket, `reconnect
      ensures Fields() == Closed(old(Fields()), id)
      ensures old(socket) != Some(id) ==> (socket, reconnect) == old((socket, reconnect))
      ensures old(socket) == Some(id) ==> socket.None? && reconnect == (old(reconnect) || (listeners != {} && window))
    {
      if socket != Some(id) {
        return;
      }
      socket := None;
      if listeners != {} {
        ScheduleReconnect();
      }
    }

    method ScheduleReconnect()
      modifies `reconnect
      ensures Fields() == old(Fields()).(reconnect := old(reconnect) || window)
    {
      if reconnect {
        return;
      }
      if !window {
        return;
      }
      reconnect := true;
    }

    method OnReconnectTimer()
      modifies `reconnect, `socket, `made
      ensures Fields() == Retried(old(Fields()))
      ensures !reconnect && socket == if old(socket).None? && listeners != {} then Some(old(made)) else old(socket)
    {
      reconnect := false;
      EnsureSocket();
    }
  }
}
