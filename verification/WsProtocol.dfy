/** Every interleaving of fetches, frames, actions, sockets and subscribers around the mirrored signal. */
module WsProtocol {
  import opened Common
  import opened WsStatus

  /** A fetch on its way, and the instant it was issued. */
  datatype Flight = Flight(ticket: Ticket, issued: nat)

  /**
   The service, a clock that counts events, the fetches in flight, the sockets that still
   deliver messages, the issue instants of the applied states in order, the state applied last
   since the last teardown, and the instants of that teardown, of the last authoritative update and
   of the last fetch issued.
   */
  datatype State<T> = State(view: View<T>, clock: nat, flights: seq<Flight>, live: set<SocketId>,
                            applied: seq<nat>, arrived: Option<T>, teardown: nat, authority: nat, newest: nat)

  function Start<T>(window: bool): State<T> {
    State(View(None, {}, None, false, 0, 0, 0, map[], window), 1, [], {}, [], None, 0, 0, 0)
  }

  datatype Step<T> =
    | Subscribe(l: Listener)
    | Unsubscribe(l: Listener)
    | Fetch                            // anyone asks for the state, or a socket opens
    | Answer(k: nat, state: T)         // a fetch in flight is answered
    | Fail(k: nat)                     // or rejected
    | Message(id: SocketId, parsed: Option<T>)
    | Act(state: T)                    // an action of this client succeeded
    | CloseReport(id: SocketId)        // may arrive at any time, for any socket ever made
    | SocketError(id: SocketId)
    | Timer

  predicate Enabled<T>(s: State<T>, step: Step<T>) {
    match step
    case Answer(k, _) => k < |s.flights|
    case Fail(k) => k < |s.flights|
    case Message(id, _) => id in s.live    // a retired socket delivers no messages
    case CloseReport(id) => id < s.view.made
    case SocketError(id) => id < s.view.made
    case Timer => s.view.reconnect
    case _ => true
  }

  /** A socket made by this event delivers messages until it is closed, fails, or is retired. */
  function NewlyLive<T>(before: View<T>, after: View<T>): set<SocketId> {
    if after.made > before.made then {before.made} else {}
  }

  function Apply<T>(s: State<T>, step: Step<T>): State<T>
    requires Enabled(s, step)
  {
    var t := s.(clock := s.clock + 1);
    match step
    case Subscribe(l) =>
      var (view, ticket) := Subscribed(s.view, l);
      t.(view := view, live := s.live + NewlyLive(s.view, view),
         flights := match ticket case Some(issued) => s.flights + [Flight(issued, s.clock)] case None => s.flights,
         newest := if ticket.Some? then s.clock else s.newest)
    case Unsubscribe(l) =>
      var view := Unsubscribed(s.view, l);
      if view.listeners != {} then t.(view := view)
      else t.(view := view, live := {}, arrived := None, teardown := s.clock)
    case Fetch =>
      var (view, ticket) := Issued(s.view);
      t.(view := view, flights := s.flights + [Flight(ticket, s.clock)], newest := s.clock)
    case Answer(k, state) =>
      var f := s.flights[k];
      t.(view := Settled(s.view, f.ticket, state), flights := Without(s.flights, k),
         applied := if Applies(s.view, f.ticket) then s.applied + [f.issued] else s.applied,
         arrived := if Applies(s.view, f.ticket) then Some(state) else s.arrived)
    case Fail(k) => t.(flights := Without(s.flights, k))
    case Message(id, parsed) =>
      if parsed.None? then t
        else t.(view := Authoritative(s.view, parsed.value), applied := s.applied + [s.clock], arrived := parsed,
                authority := s.clock)
    case Act(state) =>
      t.(view := Authoritative(s.view, state), applied := s.applied + [s.clock], arrived := Some(state),
         authority := s.clock)
    case CloseReport(id) => t.(view := Closed(s.view, id), live := s.live - {id})
    case SocketError(id) => t.(live := s.live - {id})
    case Timer =>
      var view := Retried(s.view);
      t.(view := view, live := s.live + NewlyLive(s.view, view))
  }

  predicate CanRun<T>(s: State<T>, steps: seq<Step<T>>)
    decreases |steps|
  {
    steps == [] || (Enabled(s, steps[0]) && CanRun(Apply(s, steps[0]), steps[1..]))
  }

  function After<T>(s: State<T>, steps: seq<Step<T>>): State<T>
    requires CanRun(s, steps)
    decreases |steps|
  {
    if steps == [] then s else After(Apply(s, steps[0]), steps[1..])
  }

  function Latest<T>(s: State<T>): nat {
    if s.applied == [] then 0 else s.applied[|s.applied| - 1]
  }

  /** The counters tell exactly whether anything newer than this fetch happened. */
  predicate FlightFits<T>(s: State<T>, f: Flight) {
    && f.ticket.number <= s.view.fetchSeq && f.ticket.generation <= s.view.generation && f.issued < s.clock
    && (f.ticket.number == s.view.fetchSeq <==> f.issued >= s.newest && f.issued > s.teardown)
    && (f.ticket.generation == s.view.generation <==> f.issued > s.authority)
    && (Applies(s.view, f.ticket) ==> Latest(s) <= f.issued)
  }

  predicate FlightsFit<T>(s: State<T>) {
    && (forall f :: f in s.flights ==> FlightFits(s, f))
    && Numbered(s.flights)
  }

  /** Fetches are numbered as they are issued. */
  predicate Numbered(flights: seq<Flight>) {
    forall j, k :: 0 <= j < k < |flights| ==> flights[j].ticket.number < flights[k].ticket.number
  }

  predicate InOrder(stamps: seq<nat>) {
    forall i, j :: 0 <= i < j < |stamps| ==> stamps[i] <= stamps[j]
  }

  /** Applied states come in the order their sources were issued, and a cached one is younger than the last teardown. */
  predicate Chronological<T>(s: State<T>) {
    && InOrder(s.applied)
    && Latest(s) < s.clock && s.teardown < s.clock && s.authority < s.clock && s.newest < s.clock
    && (s.view.current.Some? ==> s.applied != [] && Latest(s) > s.teardown)
  }

  predicate Connected<T>(s: State<T>) {
    && (s.view.listeners != {} ==> s.view.socket.Some? || s.view.reconnect || !s.view.window)
    && (s.view.socket.Some? ==> s.view.socket.value < s.view.made)
    && (forall id :: id in s.live ==> s.view.socket == Some(id))
  }

  ghost predicate EveryoneTold<T>(v: View<T>) {
    v.current.Some? ==> forall l :: l in v.listeners ==> l in v.told && v.told[l] == v.current.value
  }

  ghost predicate Inv<T>(s: State<T>) {
    FlightsFit(s) && Chronological(s) && Connected(s) && EveryoneTold(s.view) && s.view.current == s.arrived
  }

  /** What an event does to the counters it does not leave alone. */
  predicate CountersMove<T>(s: State<T>, s': State<T>) {
    && (|| (s'.view.fetchSeq, s'.newest, s'.teardown) == (s.view.fetchSeq, s.newest, s.teardown)
        || (s'.view.fetchSeq == s.view.fetchSeq + 1 && s'.newest == s.clock && s'.teardown == s.teardown)
        || (s'.view.fetchSeq == s.view.fetchSeq + 1 && s'.newest == s.newest && s'.teardown == s.clock))
    && (|| (s'.view.generation, s'.authority, s'.applied) == (s.view.generation, s.authority, s.applied)
        || (s'.view.generation == s.view.generation + 1 && s'.authority == s.clock))
  }

  lemma FlightsKept<T>(s: State<T>, s': State<T>)
    requires FlightsFit(s) && s'.flights == s.flights && s'.clock == s.clock + 1 && CountersMove(s, s')
    ensures FlightsFit(s')
  {
  }

  lemma FlightIssued<T>(s: State<T>, s': State<T>, f: Flight)
    requires FlightsFit(s) && Chronological(s) && s'.flights == s.flights + [f] && s'.clock == s.clock + 1
    requires s'.view.fetchSeq == s.view.fetchSeq + 1 && s'.newest == s.clock && s'.teardown == s.teardown
    requires (s'.view.generation, s'.authority, s'.applied) == (s.view.generation, s.authority, s.applied)
    requires f == Flight(Ticket(s'.view.fetchSeq, s'.view.generation), s.clock)
    ensures FlightsFit(s')
  {
    FlightsKept(s, s'.(flights := s.flights));
    forall g | g in s'.flights ensures FlightFits(s', g) {
      if g in s.flights { assert FlightFits(s'.(flights := s.flights), g); }
    }
    forall j, k | 0 <= j < k < |s'.flights| ensures s'.flights[j].ticket.number < s'.flights[k].ticket.number {
      assert s.flights[j] in s.flights;
    }
  }

  lemma FlightLanded<T>(s: State<T>, s': State<T>, k: nat)
    requires FlightsFit(s) && k < |s.flights| && s'.flights == Without(s.flights, k) && s'.clock >= s.clock
    requires (s'.view.fetchSeq, s'.newest, s'.teardown) == (s.view.fetchSeq, s.newest, s.teardown)
    requires (s'.view.generation, s'.authority) == (s.view.generation, s.authority)
    requires s'.applied == s.applied || Applies(s.view, s.flights[k].ticket)
    ensures FlightsFit(s')
  {
    assert s.flights[k] in s.flights;
    hide FlightFits;
    forall g | g in s'.flights ensures FlightFits(s', g) {
      var j :| 0 <= j < |s'.flights| && s'.flights[j] == g;
      var i := if j < k then j else j + 1;
      assert s.flights[i] == g && g in s.flights;
      OtherStillFits(s, s', s.flights[k], g);
    }
  }

  lemma OtherStillFits<T>(s: State<T>, s': State<T>, f: Flight, g: Flight)
    requires FlightFits(s, f) && FlightFits(s, g) && f.ticket.number != g.ticket.number && s'.clock >= s.clock
    requires (s'.view.fetchSeq, s'.newest, s'.teardown) == (s.view.fetchSeq, s.newest, s.teardown)
    requires (s'.view.generation, s'.authority) == (s.view.generation, s.authority)
    requires s'.applied == s.applied || Applies(s.view, f.ticket)
    ensures FlightFits(s', g)
  {
  }

  lemma StepKeepsFlights<T>(s: State<T>, step: Step<T>)
    requires FlightsFit(s) && Chronological(s) && Enabled(s, step)
    ensures FlightsFit(Apply(s, step))
  {
    var s' := Apply(s, step);
    match step
    case Subscribe(l) =>
      if s.view.current.Some? { FlightsKept(s, s'); } else { FlightIssued(s, s', s'.flights[|s.flights|]); }
    case Unsubscribe(l) => FlightsKept(s, s');
    case Fetch => FlightIssued(s, s', s'.flights[|s.flights|]);
    case Answer(k, _) => FlightLanded(s, s', k);
    case Fail(k) => FlightLanded(s, s', k);
    case Message(_, _) => FlightsKept(s, s');
    case Act(_) => FlightsKept(s, s');
    case CloseReport(_) => FlightsKept(s, s');
    case SocketError(_) => FlightsKept(s, s');
    case Timer => FlightsKept(s, s');
  }

  lemma StepKeepsChronology<T>(s: State<T>, step: Step<T>)
    requires FlightsFit(s) && Chronological(s) && Enabled(s, step)
    ensures Chronological(Apply(s, step))
  {
    match step
    case Answer(k, _) =>
      assert s.flights[k] in s.flights && FlightFits(s, s.flights[k]);
      if Applies(s.view, s.flights[k].ticket) { AppendInOrder(s.applied, s.flights[k].issued); }
    case Message(_, _) => AppendInOrder(s.applied, s.clock);
    case Act(_) => AppendInOrder(s.applied, s.clock);
    case _ =>
      hide InOrder;
  }

  lemma AppendInOrder(stamps: seq<nat>, stamp: nat)
    requires InOrder(stamps) && (stamps == [] || stamps[|stamps| - 1] <= stamp)
    ensures InOrder(stamps + [stamp])
  {
  }

  lemma StepKeepsConnection<T>(s: State<T>, step: Step<T>)
    requires Connected(s) && Enabled(s, step)
    ensures Connected(Apply(s, step))
  {
  }

  lemma StepTellsEveryone<T>(s: State<T>, step: Step<T>)
    requires EveryoneTold(s.view) && Enabled(s, step)
    ensures EveryoneTold(Apply(s, step).view)
  {
  }

  lemma StepKeepsInv<T>(s: State<T>, step: Step<T>)
    requires Inv(s) && Enabled(s, step)
    ensures Inv(Apply(s, step))
  {
    StepKeepsFlights(s, step);
    StepKeepsChronology(s, step);
    StepKeepsConnection(s, step);
    StepTellsEveryone(s, step);
  }

  lemma {:induction false} RunKeepsInv<T>(s: State<T>, steps: seq<Step<T>>)
    requires Inv(s) && CanRun(s, steps)
    ensures Inv(After(s, steps)) && After(s, steps).view.window == s.view.window
    decreases |steps|
  {
    if steps != [] {
      StepKeepsInv(s, steps[0]);
      RunKeepsInv(Apply(s, steps[0]), steps[1..]);
    }
  }

  lemma StartFits<T>(window: bool)
    ensures Inv(Start<T>(window))
  {
  }

  /**
   In every run an answer is applied exactly when nothing newer happened since its fetch was
   issued: no later fetch, no frame or action, no teardown. Whatever is applied is therefore
   at least as new as everything applied before it.
   */
  lemma AppliedExactlyWhenNewest<T>(window: bool, steps: seq<Step<T>>, k: nat)
    requires CanRun(Start(window), steps) && k < |After(Start(window), steps).flights|
    ensures var s := After(Start(window), steps);
      var f := s.flights[k];
      && (Applies(s.view, f.ticket) <==> f.issued >= s.newest && f.issued > s.authority && f.issued > s.teardown)
      && (Applies(s.view, f.ticket) ==> Latest(s) <= f.issued)
  {
    StartFits<T>(window);
    RunKeepsInv(Start(window), steps);
    var s := After(Start(window), steps);
    assert s.flights[k] in s.flights && FlightFits(s, s.flights[k]);
  }

  /**
   In every run the applied states come in the order their sources were issued, what is cached is
   the one applied last since the last teardown, everyone listening was told it, no two
   sockets deliver messages, and in a browser there is a socket or a reconnect due while anyone
   listens.
   */
  lemma EveryRun<T>(window: bool, steps: seq<Step<T>>)
    requires CanRun(Start(window), steps)
    ensures var s := After(Start(window), steps);
      && InOrder(s.applied)
      && (s.view.current.Some? ==> s.applied != [] && Latest(s) > s.teardown)
      && s.view.current == s.arrived
      && (s.arrived.Some? ==>
            forall l :: l in s.view.listeners ==> l in s.view.told && s.view.told[l] == s.arrived.value)
      && (forall a, b :: a in s.live && b in s.live ==> a == b)
      && (window && s.view.listeners != {} ==> s.view.socket.Some? || s.view.reconnect)
  {
    StartFits<T>(window);
    RunKeepsInv(Start(window), steps);
  }

  /** Whoever listens is served by a socket, or will be by the next one. */
  ghost predicate AlwaysServed<T(!new)>(window: bool) {
    forall steps: seq<Step<T>> :: CanRun(Start(window), steps) ==>
      var v := After(Start(window), steps).view;
      v.listeners != {} ==> v.socket.Some? || v.reconnect
  }

  /** Without a window to schedule in, one lost connection is never replaced while the listener stays. */
  lemma LeftUnserved<T>() returns (steps: seq<Step<T>>)
    ensures CanRun(Start(false), steps)
    ensures var v := After(Start(false), steps).view;
      v.listeners != {} && v.socket.None? && !v.reconnect
  {
    steps := [Subscribe(0), CloseReport(0)];
    var joined := Apply(Start<T>(false), Subscribe(0));
    assert joined.view.socket == Some(0) && joined.view.made == 1;
    var closed := Apply(joined, CloseReport(0));
    assert steps[1..] == [CloseReport(0)] && steps[1..][1..] == [];
    assert After(joined, steps[1..]) == After(closed, []) == closed;
  }

  lemma ServedExactlyInABrowser<T(!new)>(window: bool)
    ensures AlwaysServed<T>(window) <==> window
  {
    if window {
      forall steps: seq<Step<T>> | CanRun(Start(window), steps)
        ensures var v := After(Start(window), steps).view;
          v.listeners != {} ==> v.socket.Some? || v.reconnect
      {
        EveryRun(window, steps);
      }
    } else {
      var steps := LeftUnserved<T>();
    }
  }

  /** The socket was made and is no longer, or never was, the one in use. */
  predicate RetiredSocket<T>(s: State<T>, id: SocketId) {
    id < s.view.made && s.view.socket != Some(id)
  }

  lemma RetiredStaysSo<T>(s: State<T>, step: Step<T>, id: SocketId)
    requires Enabled(s, step) && RetiredSocket(s, id)
    ensures RetiredSocket(Apply(s, step), id)
  {
  }

  /** A retired socket stays retired, and nothing it still reports touches its replacement. */
  lemma {:induction false} RetiredForGood<T>(s: State<T>, steps: seq<Step<T>>, id: SocketId)
    requires Inv(s) && CanRun(s, steps) && RetiredSocket(s, id)
    ensures RetiredSocket(After(s, steps), id)
    ensures var end := After(s, steps);
      && Enabled(end, CloseReport(id)) && Apply(end, CloseReport(id)).view == end.view
      && Enabled(end, SocketError(id)) && Apply(end, SocketError(id)).view == end.view
      && !Enabled(end, Message(id, None))
    decreases |steps|
  {
    if steps != [] {
      StepKeepsInv(s, steps[0]);
      RetiredStaysSo(s, steps[0], id);
      hide Inv, RetiredSocket, Apply, Enabled;
      RetiredForGood(Apply(s, steps[0]), steps[1..], id);
    }
  }
}
