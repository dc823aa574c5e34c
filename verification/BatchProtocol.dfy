/** Every interleaving of submitters, flush loops and shutdown on the coalescing queue. */
module BatchProtocol {
  import opened Common
  import opened BatchQueue

  /** A running loop: the requests of its batch that still await their result; none when it is about to lock. */
  datatype Loop = Loop(key: Key, flight: seq<Request>)

  /**
   The shared fields, the loops, and the loops that handed over their key but have not
   signed off yet. The logs are history: every request accepted, put in a batch, answered.
   */
  datatype State = State(queue: Queue, loops: seq<Loop>, exiting: nat,
                         accepted: seq<Request>, taken: seq<Request>, answered: seq<Request>)

  const START := State(Queue(map[], {}, 0, false), [], 0, [], [], [])

  datatype Step =
    | Submit(request: Request)
    | Take(i: nat)
    | Answer(i: nat)
    | Retire(i: nat)
    | SignOff
    | Shut

  predicate AtTop(s: State, i: nat) {
    i < |s.loops| && s.loops[i].flight == []
  }

  predicate Enabled(s: State, step: Step) {
    match step
    case Submit(r) => r !in s.accepted
    case Take(i) => AtTop(s, i) && Waiting(s.queue.pending, s.loops[i].key) != []
    case Answer(i) => i < |s.loops| && s.loops[i].flight != []
    case Retire(i) => AtTop(s, i) && Waiting(s.queue.pending, s.loops[i].key) == []
    case SignOff => s.exiting > 0
    case Shut => true
  }

  function Apply(max: nat, s: State, step: Step): State
    requires Enabled(s, step)
  {
    match step
    case Submit(r) =>
      if s.queue.closed then s
      else s.(queue := Submitted(s.queue, r), accepted := s.accepted + [r],
              loops := if BatchKey(r) in s.queue.active then s.loops else s.loops + [Loop(BatchKey(r), [])])
    case Take(i) =>
      var key := s.loops[i].key;
      var batch := BatchOf(Waiting(s.queue.pending, key), max);
      s.(queue := Taken(s.queue, key, max), loops := s.loops[i := Loop(key, batch)], taken := s.taken + batch)
    case Answer(i) =>
      var loop := s.loops[i];
      s.(loops := s.loops[i := loop.(flight := loop.flight[1..])], answered := s.answered + [loop.flight[0]])
    case Retire(i) =>
      s.(queue := Retired(s.queue, s.loops[i].key), loops := Without(s.loops, i), exiting := s.exiting + 1)
    case SignOff => s.(queue := s.queue.(wg := s.queue.wg - 1), exiting := s.exiting - 1)
    case Shut => s.(queue := s.queue.(closed := true))
  }

  predicate CanRun(max: nat, s: State, steps: seq<Step>)
    decreases |steps|
  {
    steps == [] || (Enabled(s, steps[0]) && CanRun(max, Apply(max, s, steps[0]), steps[1..]))
  }

  function After(max: nat, s: State, steps: seq<Step>): State
    requires CanRun(max, s, steps)
    decreases |steps|
  {
    if steps == [] then s else After(max, Apply(max, s, steps[0]), steps[1..])
  }

  /** The requests of a log under one key, in order. */
  function OnKey(log: seq<Request>, key: Key): seq<Request> {
    if log == [] then []
    else OnKey(log[..|log| - 1], key) + if BatchKey(log[|log| - 1]) == key then [log[|log| - 1]] else []
  }

  lemma OnKeyOneMore(log: seq<Request>, r: Request, key: Key)
    ensures OnKey(log + [r], key) == OnKey(log, key) + if BatchKey(r) == key then [r] else []
  {
    assert (log + [r])[..|log|] == log;
  }

  lemma {:induction false} OnKeyMore(log: seq<Request>, more: seq<Request>, key: Key)
    ensures OnKey(log + more, key) == OnKey(log, key) + OnKey(more, key)
  {
    if more == [] {
      assert log + more == log;
    } else {
      var rest, last := more[..|more| - 1], more[|more| - 1];
      assert log + more == log + rest + [last];
      OnKeyMore(log, rest, key);
      OnKeyOneMore(log + rest, last, key);
    }
  }

  lemma {:induction false} OnKeyOfOne(log: seq<Request>, own: Key, key: Key)
    requires forall r :: r in log ==> BatchKey(r) == own
    ensures OnKey(log, key) == if own == key then log else []
  {
    if log != [] {
      OnKeyOfOne(log[..|log| - 1], own, key);
      assert log == log[..|log| - 1] + [log[|log| - 1]];
    }
  }

  lemma {:induction false} OnKeyMembers(log: seq<Request>, key: Key)
    ensures forall r :: r in OnKey(log, key) <==> r in log && BatchKey(r) == key
  {
    if log != [] {
      OnKeyMembers(log[..|log| - 1], key);
      assert log == log[..|log| - 1] + [log[|log| - 1]];
    }
  }

  /** A loop's share: what it took and did not answer yet, never more than a batch. */
  predicate LoopFits(max: nat, s: State, i: nat)
    requires i < |s.loops|
  {
    && s.loops[i].key in s.queue.active
    && OnKey(s.taken, s.loops[i].key) == OnKey(s.answered, s.loops[i].key) + s.loops[i].flight
    && |s.loops[i].flight| <= max
  }

  /** First in, first out: under each key, what was accepted is what was taken and then what waits. */
  predicate KeyFits(s: State, key: Key) {
    && OnKey(s.accepted, key) == OnKey(s.taken, key) + Waiting(s.queue.pending, key)
    && (key !in s.queue.active ==> Waiting(s.queue.pending, key) == [] && OnKey(s.taken, key) == OnKey(s.answered, key))
  }

  predicate Distinct(log: seq<Request>) {
    forall j, k :: 0 <= j < k < |log| ==> log[j] != log[k]
  }

  /** No two loops drain one key. */
  predicate NoTwins(loops: seq<Loop>) {
    forall i, j :: 0 <= i < j < |loops| ==> loops[i].key != loops[j].key
  }

  ghost predicate Inv(max: nat, s: State) {
    && Distinct(s.accepted)
    && NoTwins(s.loops)
    && (forall key :: KeyFits(s, key))
    && (forall i {:trigger LoopFits(max, s, i)} :: 0 <= i < |s.loops| ==> LoopFits(max, s, i))
    && |s.queue.active| == |s.loops|
    && s.queue.wg == |s.loops| + s.exiting
  }

  lemma StepKeepsInv(max: nat, s: State, step: Step)
    requires Inv(max, s) && Enabled(s, step)
    ensures Inv(max, Apply(max, s, step))
  {
    match step
    case Submit(r) => if !s.queue.closed { SubmitKeepsInv(max, s, r); }
    case Take(i) => TakeKeepsInv(max, s, i);
    case Answer(i) => AnswerKeepsInv(max, s, i);
    case Retire(i) => RetireKeepsInv(max, s, i);
    case SignOff => SameShares(max, s, Apply(max, s, step));
    case Shut => SameShares(max, s, Apply(max, s, step));
  }

  lemma SameShares(max: nat, s: State, s': State)
    requires Inv(max, s)
    requires s'.queue.pending == s.queue.pending && s'.queue.active == s.queue.active && s'.loops == s.loops
    requires (s'.accepted, s'.taken, s'.answered) == (s.accepted, s.taken, s.answered)
    ensures forall key :: KeyFits(s', key)
    ensures forall i {:trigger LoopFits(max, s', i)} :: 0 <= i < |s'.loops| ==> LoopFits(max, s', i)
  {
    forall key ensures KeyFits(s', key) { assert KeyFits(s, key); }
    forall i | 0 <= i < |s'.loops| ensures LoopFits(max, s', i) { assert LoopFits(max, s, i); }
  }

  /** A request under its own key's loop, running or new. */
  lemma SubmitKeepsInv(max: nat, s: State, r: Request)
    requires Inv(max, s) && Enabled(s, Submit(r)) && !s.queue.closed
    ensures Inv(max, Apply(max, s, Submit(r)))
  {
    var s', own := Apply(max, s, Submit(r)), BatchKey(r);
    assert KeyFits(s, own);
    forall key ensures KeyFits(s', key) {
      assert KeyFits(s, key);
      OnKeyOneMore(s.accepted, r, key);
    }
    hide OnKey, KeyFits;
    forall i | 0 <= i < |s'.loops|
      ensures LoopFits(max, s', i) && (i < |s.loops| && own !in s.queue.active ==> s.loops[i].key != own)
    {
      if i < |s.loops| { assert LoopFits(max, s, i); }
    }
  }

  lemma TakeKeepsInv(max: nat, s: State, i: nat)
    requires Inv(max, s) && Enabled(s, Take(i))
    ensures Inv(max, Apply(max, s, Take(i)))
  {
    var s', own := Apply(max, s, Take(i)), s.loops[i].key;
    assert LoopFits(max, s, i) && KeyFits(s, own);
    WaitingIsOnKey(s, own);
    hide OnKey;
    forall key ensures KeyFits(s', key) {
      assert KeyFits(s, key);
      TakeFitsKey(max, s, i, key);
    }
    hide KeyFits;
    forall j | 0 <= j < |s'.loops| ensures LoopFits(max, s', j) {
      assert LoopFits(max, s, j);
      TakeFitsLoop(max, s, i, j);
    }
  }

  lemma TakeFitsLoop(max: nat, s: State, i: nat, j: nat)
    requires Enabled(s, Take(i)) && j < |s.loops| && LoopFits(max, s, j)
      && (s.loops[i].key == s.loops[j].key ==> i == j)
    requires forall r :: r in Waiting(s.queue.pending, s.loops[i].key) ==> BatchKey(r) == s.loops[i].key
    ensures LoopFits(max, Apply(max, s, Take(i)), j)
  {
    hide OnKey;
    var own := s.loops[i].key;
    LogGrows(s.taken, BatchOf(Waiting(s.queue.pending, own), max), own, s.loops[j].key);
  }

  lemma TakeFitsKey(max: nat, s: State, i: nat, key: Key)
    requires Enabled(s, Take(i)) && LoopFits(max, s, i) && KeyFits(s, key)
    requires forall r :: r in Waiting(s.queue.pending, s.loops[i].key) ==> BatchKey(r) == s.loops[i].key
    ensures KeyFits(Apply(max, s, Take(i)), key)
  {
    hide OnKey;
    var own := s.loops[i].key;
    var waiting := Waiting(s.queue.pending, own);
    var batch := BatchOf(waiting, max);
    LogGrows(s.taken, batch, own, key);
    assert OnKey(s.taken, own) + waiting == OnKey(s.taken, own) + batch + waiting[|batch|..];
  }

  lemma LogGrows(log: seq<Request>, more: seq<Request>, own: Key, key: Key)
    requires forall r :: r in more ==> BatchKey(r) == own
    ensures OnKey(log + more, key) == if key == own then OnKey(log, key) + more else OnKey(log, key)
  {
    OnKeyMore(log, more, key);
    OnKeyOfOne(more, own, key);
  }

  lemma WaitingIsOnKey(s: State, key: Key)
    requires KeyFits(s, key)
    ensures forall r :: r in Waiting(s.queue.pending, key) ==> BatchKey(r) == key
  {
    OnKeyMembers(s.accepted, key);
    assert forall r :: r in Waiting(s.queue.pending, key) ==> r in OnKey(s.accepted, key);
  }

  lemma AnswerKeepsInv(max: nat, s: State, i: nat)
    requires Inv(max, s) && Enabled(s, Answer(i))
    ensures Inv(max, Apply(max, s, Answer(i)))
  {
    var s', own, flight := Apply(max, s, Answer(i)), s.loops[i].key, s.loops[i].flight;
    assert LoopFits(max, s, i);
    OnKeyMembers(s.taken, own);
    assert flight[0] in OnKey(s.taken, own);
    hide OnKey;
    forall key ensures KeyFits(s', key) {
      assert KeyFits(s, key);
      OnKeyOneMore(s.answered, flight[0], key);
    }
    hide KeyFits;
    forall j | 0 <= j < |s'.loops| ensures LoopFits(max, s', j) {
      assert LoopFits(max, s, j);
      AnswerFitsLoop(max, s, i, j);
    }
  }

  lemma AnswerFitsLoop(max: nat, s: State, i: nat, j: nat)
    requires Enabled(s, Answer(i)) && j < |s.loops| && LoopFits(max, s, j)
      && (s.loops[i].key == s.loops[j].key ==> i == j)
    requires BatchKey(s.loops[i].flight[0]) == s.loops[i].key
    ensures LoopFits(max, Apply(max, s, Answer(i)), j)
  {
    hide OnKey;
    var own, flight := s.loops[i].key, s.loops[i].flight;
    assert OnKey(s.answered, own) + flight == OnKey(s.answered, own) + [flight[0]] + flight[1..];
    OnKeyOneMore(s.answered, flight[0], s.loops[j].key);
  }

  lemma RetireKeepsInv(max: nat, s: State, i: nat)
    requires Inv(max, s) && Enabled(s, Retire(i))
    ensures Inv(max, Apply(max, s, Retire(i)))
  {
    var s', own := Apply(max, s, Retire(i)), s.loops[i].key;
    assert LoopFits(max, s, i);
    forall key ensures KeyFits(s', key) {
      assert KeyFits(s, key);
    }
    forall j | 0 <= j < |s'.loops| ensures LoopFits(max, s', j) {
      assert LoopFits(max, s, if j < i then j else j + 1);
    }
  }

  lemma {:induction false} RunKeepsInv(max: nat, s: State, steps: seq<Step>)
    requires Inv(max, s) && CanRun(max, s, steps)
    ensures Inv(max, After(max, s, steps))
    decreases |steps|
  {
    if steps != [] {
      StepKeepsInv(max, s, steps[0]);
      RunKeepsInv(max, Apply(max, s, steps[0]), steps[1..]);
    }
  }

  lemma StartFits(max: nat)
    ensures Inv(max, START)
  {
    assert forall key :: KeyFits(START, key);
  }

  /** What a loop under this key still has in flight. */
  function FlightOf(loops: seq<Loop>, key: Key): seq<Request> {
    if loops == [] then []
    else if loops[0].key == key then loops[0].flight
    else FlightOf(loops[1..], key)
  }

  function KeysOf(loops: seq<Loop>): set<Key> {
    set i | 0 <= i < |loops| :: loops[i].key
  }

  lemma {:induction false} AsManyKeys(loops: seq<Loop>)
    requires NoTwins(loops)
    ensures |KeysOf(loops)| == |loops|
  {
    if loops != [] {
      var n := |loops| - 1;
      AsManyKeys(loops[..n]);
      assert KeysOf(loops) == KeysOf(loops[..n]) + {loops[n].key};
    }
  }

  lemma {:induction false} SameSize<T>(a: set<T>, b: set<T>)
    requires a <= b && |a| == |b|
    ensures a == b
  {
    if a != {} {
      var x :| x in a;
      SameSize(a - {x}, b - {x});
    }
  }

  /** No wake-up is lost: a key is active exactly when a loop drains it. */
  lemma ActiveIsLooped(max: nat, s: State)
    requires Inv(max, s)
    ensures s.queue.active == KeysOf(s.loops)
    ensures forall key :: Waiting(s.queue.pending, key) != [] ==> key in KeysOf(s.loops)
  {
    AsManyKeys(s.loops);
    forall i | 0 <= i < |s.loops| ensures s.loops[i].key in s.queue.active { assert LoopFits(max, s, i); }
    SameSize(KeysOf(s.loops), s.queue.active);
    forall key | Waiting(s.queue.pending, key) != [] ensures key in KeysOf(s.loops) { assert KeyFits(s, key); }
  }

  lemma {:induction false} FlightOfLoop(loops: seq<Loop>, i: nat)
    requires NoTwins(loops) && i < |loops|
    ensures FlightOf(loops, loops[i].key) == loops[i].flight
  {
    if i > 0 {
      assert loops[0].key != loops[i].key;
      FlightOfLoop(loops[1..], i - 1);
    }
  }

  lemma {:induction false} NoLoopNoFlight(loops: seq<Loop>, key: Key)
    requires key !in KeysOf(loops)
    ensures FlightOf(loops, key) == []
  {
    if loops != [] {
      assert loops[0].key in KeysOf(loops);
      assert forall i :: 0 <= i < |loops| - 1 ==>
        loops[1..][i].key == loops[i + 1].key && loops[i + 1].key in KeysOf(loops);
      NoLoopNoFlight(loops[1..], key);
    }
  }

  /**
   First in, first out: the accepted requests of a key are the answered ones, then those in flight,
   then those that wait.
   */
  lemma FirstInFirstOut(max: nat, s: State, key: Key)
    requires Inv(max, s)
    ensures OnKey(s.accepted, key) == OnKey(s.answered, key) + FlightOf(s.loops, key) + Waiting(s.queue.pending, key)
    ensures |FlightOf(s.loops, key)| <= max
  {
    ActiveIsLooped(max, s);
    assert KeyFits(s, key);
    if i :| 0 <= i < |s.loops| && s.loops[i].key == key {
      assert LoopFits(max, s, i);
      FlightOfLoop(s.loops, i);
    } else {
      NoLoopNoFlight(s.loops, key);
    }
  }

  lemma {:induction false} OnKeyCount(log: seq<Request>, key: Key, r: Request)
    ensures multiset(OnKey(log, key))[r] == if BatchKey(r) == key then multiset(log)[r] else 0
  {
    if log != [] {
      OnKeyCount(log[..|log| - 1], key, r);
      assert log == log[..|log| - 1] + [log[|log| - 1]];
    }
  }

  lemma {:induction false} DistinctCounts(log: seq<Request>, r: Request)
    requires Distinct(log)
    ensures multiset(log)[r] == if r in log then 1 else 0
  {
    if log != [] {
      var n := |log| - 1;
      DistinctCounts(log[..n], r);
      assert log == log[..n] + [log[n]];
    }
  }

  /**
   Every accepted request is in exactly one place, once: answered, in flight, or waiting. No other
   request is anywhere.
   */
  lemma OnePlaceEach(max: nat, s: State, r: Request, key: Key)
    requires Inv(max, s)
    ensures multiset(OnKey(s.answered, key))[r] + multiset(FlightOf(s.loops, key))[r]
      + multiset(Waiting(s.queue.pending, key))[r]
         == if r in s.accepted && BatchKey(r) == key then 1 else 0
    ensures BatchKey(r) == key ==> multiset(s.answered)[r] == multiset(OnKey(s.answered, key))[r]
  {
    FirstInFirstOut(max, s, key);
    OnKeyCount(s.accepted, key, r);
    OnKeyCount(s.answered, key, r);
    DistinctCounts(s.accepted, r);
  }

  /**
   In every interleaving: each key is served first in, first out, in batches within the limit;
   a non-empty queue has its loop; and the wait group counts the active keys and the loops
   signing off.
   */
  lemma EveryInterleaving(max: nat, steps: seq<Step>, key: Key)
    requires CanRun(max, START, steps)
    ensures var s := After(max, START, steps);
      && OnKey(s.accepted, key) == OnKey(s.answered, key) + FlightOf(s.loops, key) + Waiting(s.queue.pending, key)
      && |FlightOf(s.loops, key)| <= max
      && (Waiting(s.queue.pending, key) != [] ==> key in KeysOf(s.loops))
      && s.queue.active == KeysOf(s.loops)
      && s.queue.wg == |s.queue.active| + s.exiting
  {
    StartFits(max);
    RunKeepsInv(max, START, steps);
    FirstInFirstOut(max, After(max, START, steps), key);
    ActiveIsLooped(max, After(max, START, steps));
  }

  /** Once no loop is left to wait for, every accepted request has its one answer. */
  lemma DrainedIsAnswered(max: nat, s: State)
    requires Inv(max, s) && s.queue.wg == 0
    ensures multiset(s.answered) == multiset(s.accepted)
    ensures forall key :: Waiting(s.queue.pending, key) == []
  {
    forall key ensures Waiting(s.queue.pending, key) == [] && FlightOf(s.loops, key) == [] {
      assert KeyFits(s, key);
    }
    forall r: Request ensures multiset(s.answered)[r] == multiset(s.accepted)[r] {
      OnePlaceEach(max, s, r, BatchKey(r));
      DistinctCounts(s.accepted, r);
    }
  }

  /** The steps that work the queue off, as opposed to submitting to it or closing it. */
  predicate Works(step: Step) {
    !step.Submit? && !step.Shut?
  }

  lemma LogsNest(max: nat, s: State)
    requires Inv(max, s)
    ensures |s.answered| <= |s.taken| <= |s.accepted|
  {
    ActiveIsLooped(max, s);
    forall r: Request ensures multiset(s.answered)[r] <= multiset(s.taken)[r] <= multiset(s.accepted)[r] {
      var key := BatchKey(r);
      OnKeyCount(s.accepted, key, r);
      OnKeyCount(s.taken, key, r);
      OnKeyCount(s.answered, key, r);
      assert KeyFits(s, key);
      if i :| 0 <= i < |s.loops| && s.loops[i].key == key {
        assert LoopFits(max, s, i);
      }
    }
    Smaller(multiset(s.answered), multiset(s.taken));
    Smaller(multiset(s.taken), multiset(s.accepted));
  }

  lemma Smaller<T>(a: multiset<T>, b: multiset<T>)
    requires a <= b
    ensures |a| <= |b|
  {
    assert b == a + (b - a);
  }

  /** Work left: each request is taken and answered, each loop retires and signs off. */
  function Measure(max: nat, s: State): int {
    2 * (|s.accepted| - |s.taken|) + (|s.taken| - |s.answered|) + 2 * |s.loops| + s.exiting
  }

  /** Each working step leaves strictly less to do, and never nothing to do while a loop is left. */
  lemma WorkFalls(max: nat, s: State, step: Step)
    requires max >= 1 && Inv(max, s) && Enabled(s, step) && Works(step)
    ensures 0 <= Measure(max, Apply(max, s, step)) < Measure(max, s)
  {
    StepKeepsInv(max, s, step);
    LogsNest(max, Apply(max, s, step));
  }

  lemma SomethingToDo(max: nat, s: State) returns (step: Step)
    requires Inv(max, s) && s.queue.wg > 0
    ensures Works(step) && Enabled(s, step)
  {
    if s.exiting > 0 {
      step := SignOff;
    } else if s.loops[0].flight != [] {
      step := Answer(0);
    } else if Waiting(s.queue.pending, s.loops[0].key) == [] {
      step := Retire(0);
    } else {
      step := Take(0);
    }
  }

  /** Rejected submissions and repeated closes change nothing once the queue is closed. */
  lemma ClosedRejects(max: nat, s: State, step: Step)
    requires s.queue.closed && Enabled(s, step) && !Works(step)
    ensures Apply(max, s, step) == s
  {
  }

  function WorkIn(steps: seq<Step>): nat {
    if steps == [] then 0 else (if Works(steps[0]) then 1 else 0) + WorkIn(steps[1..])
  }

  /**
   After the close nothing is accepted, and however often others still submit or close, the
   steps that work the queue off are bounded by the work left.
   */
  lemma {:induction false} DrainEnds(max: nat, s: State, steps: seq<Step>)
    requires max >= 1 && Inv(max, s) && s.queue.closed && CanRun(max, s, steps)
    ensures After(max, s, steps).accepted == s.accepted && After(max, s, steps).queue.closed
    ensures WorkIn(steps) <= Measure(max, s)
    decreases |steps|
  {
    if steps == [] {
      LogsNest(max, s);
    } else {
      StepKeepsInv(max, s, steps[0]);
      if Works(steps[0]) { WorkFalls(max, s, steps[0]); } else { ClosedRejects(max, s, steps[0]); }
      hide Inv, Measure;
      DrainEnds(max, Apply(max, s, steps[0]), steps[1..]);
    }
  }

  /** A drain that cannot go on is complete: no loop is left and every accepted request has its answer. */
  lemma DrainCompletes(max: nat, steps: seq<Step>)
    requires CanRun(max, START, steps)
    requires var s := After(max, START, steps); forall step :: Works(step) ==> !Enabled(s, step)
    ensures var s := After(max, START, steps); s.queue.wg == 0 && multiset(s.answered) == multiset(s.accepted)
  {
    StartFits(max);
    RunKeepsInv(max, START, steps);
    var s := After(max, START, steps);
    if s.queue.wg > 0 {
      var step := SomethingToDo(max, s);
      assert false;
    }
    DrainedIsAnswered(max, s);
  }

  /** One take after another by the first loop. */
  function Takes(n: nat): seq<Step> {
    seq(n, _ => Take(0))
  }

  /** With a batch limit of zero the loop spins: it takes empty batches as often as one likes, and nothing changes. */
  lemma {:induction false} SpinsWithoutLimit(s: State, n: nat)
    requires Enabled(s, Take(0))
    ensures CanRun(0, s, Takes(n)) && After(0, s, Takes(n)) == s && WorkIn(Takes(n)) == n
  {
    if n > 0 {
      assert Takes(n)[1..] == Takes(n - 1);
      EmptyTake(s);
      SpinsWithoutLimit(s, n - 1);
    }
  }

  lemma EmptyTake(s: State)
    requires Enabled(s, Take(0))
    ensures Apply(0, s, Take(0)) == s
  {
    var key := s.loops[0].key;
    assert BatchOf(Waiting(s.queue.pending, key), 0) == [];
    assert s.loops[0 := Loop(key, [])] == s.loops;
    assert Taken(s.queue, key, 0) == s.queue;
    assert s.taken + [] == s.taken;
  }

  /** From every state a run can close in, the steps that work the queue off are bounded. */
  ghost predicate AlwaysDrains(max: nat) {
    forall steps :: CanRun(max, START, steps) && After(max, START, steps).queue.closed ==>
      exists bound: nat :: Drains(max, After(max, START, steps), bound)
  }

  ghost predicate Drains(max: nat, s: State, bound: nat) {
    forall more :: CanRun(max, s, more) ==> WorkIn(more) <= bound
  }

  /** A closed queue, with one request that waits for its loop. */
  function OneWaiting(): seq<Step> {
    [Submit(Request(0, "", "")), Shut]
  }

  lemma OneWaitingCloses(max: nat) returns (s: State)
    ensures CanRun(max, START, OneWaiting()) && s == After(max, START, OneWaiting())
    ensures s.queue.closed && Enabled(s, Take(0))
  {
    var submit, shut := Submit(Request(0, "", "")), Shut;
    var open := Apply(max, START, submit);
    s := Apply(max, open, shut);
    assert OneWaiting()[1..] == [shut] && [shut][1..] == [];
    assert CanRun(max, s, []) && After(max, s, []) == s;
    assert CanRun(max, open, [shut]) && After(max, open, [shut]) == s;
  }

  /** Every run that closes drains in boundedly many steps exactly when the batch limit is at least one. */
  lemma DrainsExactlyWhenBounded(max: nat)
    ensures AlwaysDrains(max) <==> max >= 1
  {
    if max >= 1 {
      forall steps | CanRun(max, START, steps) && After(max, START, steps).queue.closed
        ensures exists bound: nat :: Drains(max, After(max, START, steps), bound)
      {
        ClosedDrains(max, steps);
      }
    } else {
      var s := OneWaitingCloses(max);
      hide Enabled;
      forall bound: nat ensures !Drains(max, s, bound) {
        SpinsWithoutLimit(s, bound + 1);
        assert CanRun(max, s, Takes(bound + 1));
      }
    }
  }

  lemma ClosedDrains(max: nat, steps: seq<Step>)
    requires max >= 1 && CanRun(max, START, steps) && After(max, START, steps).queue.closed
    ensures exists bound: nat :: Drains(max, After(max, START, steps), bound)
  {
    var s := After(max, START, steps);
    StartFits(max);
    RunKeepsInv(max, START, steps);
    LogsNest(max, s);
    var bound: nat := Measure(max, s);
    hide Inv, Measure;
    forall more | CanRun(max, s, more) ensures WorkIn(more) <= bound {
      DrainEnds(max, s, more);
    }
    assert Drains(max, s, bound);
  }
}
