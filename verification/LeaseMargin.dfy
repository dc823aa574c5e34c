/** The hypothesis of LeaseSafety is not only enough but needed: one nanosecond past it, two monitors hold one task. */
module LeaseMargin {
  import opened Common
  import opened TaskTable
  import opened LeaseGuard
  import opened LeaseProtocol
  import opened LeaseInvariant
  import opened LeaseSafety

  const FIRST: Key := (0, 1)
  const SECOND_CLAIM: Key := (0, 2)

  ghost function Final(run: seq<State>): State
    requires |run| > 0
  {
    run[|run| - 1]
  }

  lemma Extend(p: Params, run: seq<State>, step: Step) returns (longer: seq<State>)
    requires Run(p, run) && Enabled(p, Final(run), step)
    ensures Run(p, longer) && Final(longer) == Apply(p, Final(run), step)
  {
    longer := run + [Apply(p, Final(run), step)];
    forall i | 0 <= i < |longer| - 1 ensures NextAt(p, longer, i) {
      if i < |run| - 1 { assert NextAt(p, run, i); }
    }
  }

  function Watcher(anchor: Time, renewedAt: Time, renewal: Renewal): Monitor {
    Monitor(0, Watching, anchor, Guard(false, renewedAt), renewal, {}, false)
  }

  function OwnedRow(deadline: Time): Row {
    Row(InProgress, Some(0), Some(deadline), 0)
  }

  /** Replica 0 accepts and claims a task at once, and stamps its guard a little later. */
  lemma Accepted(p: Params, lag: nat) returns (run: seq<State>)
    requires lag <= p.maxLag
    ensures Run(p, run)
    ensures Final(run) ==
      State(lag, map[0 := OwnedRow(LEASE_TTL)], map[0 := 1], map[FIRST := Watcher(0, lag, Idle)], map[], {})
  {
    run := [INIT];
    run := Extend(p, run, Admit(0, 0));
    run := Extend(p, run, ClaimAdmitted(0));
    assert Final(run) == State(0, map[0 := OwnedRow(LEASE_TTL)], map[0 := 1],
                               map[FIRST := NewMonitor(0, Claimed, 0)], map[], {});
    run := Extend(p, run, Advance(lag));
    run := Extend(p, run, StartGuard(FIRST));
  }

  /** At the last instant before it ages the guard is found young enough; then the row lapses. */
  lemma LapsedWhileChecked(p: Params, lag: nat) returns (run: seq<State>)
    requires lag <= p.maxLag && lag <= RENEW_INTERVAL + 2
    ensures Run(p, run)
    ensures Final(run) == State(LEASE_TTL + 1, map[0 := OwnedRow(LEASE_TTL)], map[0 := 1],
      map[FIRST := Watcher(0, lag, Checked(lag + LEASE_TTL - RENEW_INTERVAL - 1))], map[], {})
  {
    var checked := lag + LEASE_TTL - RENEW_INTERVAL - 1;
    run := Accepted(p, lag);
    run := Extend(p, run, Advance(checked - lag));
    run := Extend(p, run, Check(FIRST));
    run := Extend(p, run, Advance(LEASE_TTL + 1 - checked));
  }

  /** The same replica's own sweep takes the row over. */
  lemma SweptWhileChecked(p: Params, lag: nat) returns (run: seq<State>)
    requires lag <= p.maxLag && lag <= RENEW_INTERVAL + 2
    ensures Run(p, run)
    ensures Final(run) == State(LEASE_TTL + 1, map[0 := OwnedRow(LEASE_TTL + 1 + LEASE_TTL)], map[0 := 2],
      map[FIRST := Watcher(0, lag, Checked(lag + LEASE_TTL - RENEW_INTERVAL - 1)),
          SECOND_CLAIM := NewMonitor(0, Claimed, LEASE_TTL + 1)], map[], {})
  {
    run := LapsedWhileChecked(p, lag);
    var s := Final(run);
    assert SweepCandidates(s) == {0};
    run := Extend(p, run, Lock(0, 0, 1, {0}));
    var locked := s.(sweeps := map[0 := Sweep(0, LEASE_TTL + 1, {0})]);
    run := Extend(p, run, Commit(0));
    SweepOfOne(locked, lag);
  }

  lemma SweepOfOne(s: State, lag: nat)
    requires s == State(LEASE_TTL + 1, map[0 := OwnedRow(LEASE_TTL)], map[0 := 1],
      map[FIRST := Watcher(0, lag, Checked(lag + LEASE_TTL - RENEW_INTERVAL - 1))],
      map[0 := Sweep(0, LEASE_TTL + 1, {0})], {})
    ensures Committed(s, 0) == State(LEASE_TTL + 1, map[0 := OwnedRow(LEASE_TTL + 1 + LEASE_TTL)], map[0 := 2],
      map[FIRST := Watcher(0, lag, Checked(lag + LEASE_TTL - RENEW_INTERVAL - 1)),
          SECOND_CLAIM := NewMonitor(0, Claimed, LEASE_TTL + 1)], map[], {})
  {
  }

  /** The stalled renewal now reaches a row its own replica owns again, and revives the old guard beside the new one. */
  lemma TwoWatchers(p: Params) returns (run: seq<State>)
    requires !Tight(p)
    ensures Run(p, run)
    ensures Final(run).Live(FIRST) && Final(run).Live(SECOND_CLAIM)
  {
    var lag: nat := if p.maxStatement >= RENEW_INTERVAL + 2 then 0 else RENEW_INTERVAL + 2 - p.maxStatement;
    run := SweptWhileChecked(p, lag);
    run := Extend(p, run, Issue(FIRST));
    run := Extend(p, run, Execute(FIRST));
    run := Extend(p, run, Answer(FIRST, true));
    run := Extend(p, run, StartGuard(SECOND_CLAIM));
  }

  /**
   At most one monitor holds a task in every run, exactly when lag and statement time fit into one
   renewal interval.
   */
  lemma ExclusiveExactlyWhenTight(p: Params)
    ensures AlwaysExclusive(p) <==> Tight(p)
  {
    if Tight(p) {
      TightIsExclusive(p);
    } else {
      var run := TwoWatchers(p);
      assert !Exclusive(run[|run| - 1]);
    }
  }

  /** A monitor that holds its claim and has not written finds its row, in every run. */
  ghost predicate AlwaysFindsRows(p: Params) {
    forall run: seq<State>, i, key: Key ::
      Run(p, run) && 0 <= i < |run| && run[i].Live(key) && !run[i].monitors[key].wrote ==>
        key.0 in run[i].rows
  }

  const NOTICED: Time := 2 * DAY

  /** The row of a task nobody claimed for two days, once a sweep has claimed it. */
  function LateState(now: Time, guarded: Monitor, status: Status): State {
    State(now, map[0 := Row(status, Some(0), Some(NOTICED + LEASE_TTL), 0)], map[0 := 2],
          map[FIRST := NewMonitor(0, Phase.Accepted, 0), SECOND_CLAIM := guarded], map[], {})
  }

  /** The row of a task accepted at the outset and claimed by nobody. */
  function UnclaimedState(now: Time, sweeps: map<nat, Sweep>): State {
    State(now, map[0 := Row(InProgress, None, None, 0)], map[0 := 1],
          map[FIRST := NewMonitor(0, Phase.Accepted, 0)], sweeps, {})
  }

  lemma Unclaimed(p: Params) returns (run: seq<State>)
    ensures Run(p, run) && Final(run) == UnclaimedState(NOTICED, map[])
  {
    run := [INIT];
    run := Extend(p, run, Admit(0, 0));
    assert Final(run) == UnclaimedState(0, map[]);
    run := Extend(p, run, Advance(NOTICED));
  }

  lemma UnclaimedIsSwept()
    ensures SweepCandidates(UnclaimedState(NOTICED, map[])) == {0}
  {
  }

  lemma SweepOfUnclaimed()
    ensures Committed(UnclaimedState(NOTICED, map[0 := Sweep(0, NOTICED, {0})]), 0) ==
            LateState(NOTICED, NewMonitor(0, Claimed, NOTICED), InProgress)
  {
  }

  lemma ClaimedLate(p: Params) returns (run: seq<State>)
    ensures Run(p, run) && Final(run) == LateState(NOTICED, NewMonitor(0, Claimed, NOTICED), InProgress)
  {
    run := Unclaimed(p);
    UnclaimedIsSwept();
    SweepOfUnclaimed();
    var locked := UnclaimedState(NOTICED, map[0 := Sweep(0, NOTICED, {0})]);
    hide SweepCandidates, Committed;
    run := Extend(p, run, Lock(0, 0, 1, {0}));
    assert Final(run) == locked;
    run := Extend(p, run, Commit(0));
  }

  /** The sweeping replica stamps the guard of its new claim a little late. */
  lemma WatchedLate(p: Params, lag: nat) returns (run: seq<State>)
    requires lag <= p.maxLag
    ensures Run(p, run)
    ensures Final(run) == LateState(NOTICED + lag, Watcher(NOTICED, NOTICED + lag, Idle), InProgress)
  {
    run := ClaimedLate(p);
    run := Extend(p, run, Advance(lag));
    run := Extend(p, run, StartGuard(SECOND_CLAIM));
  }

  /**
   Retention spares a row while its lease runs, and takes it at the very instant it ends, which
   the sweep does not yet: a guard stamped more than an interval after its claim still holds then.
   */
  lemma RetiredUnderWatch(p: Params) returns (run: seq<State>)
    requires p.maxLag > RENEW_INTERVAL
    ensures Run(p, run)
    ensures Final(run).Live(SECOND_CLAIM) && !Final(run).monitors[SECOND_CLAIM].wrote && 0 !in Final(run).rows
  {
    var lag: nat := RENEW_INTERVAL + 1;
    var watcher := Watcher(NOTICED, NOTICED + lag, Idle);
    run := WatchedLate(p, lag);
    run := Extend(p, run, Cancel(0));
    assert Final(run) == LateState(NOTICED + lag, watcher, Cancelled);
    run := Extend(p, run, Advance(LEASE_TTL - lag));
    assert Final(run) == LateState(NOTICED + LEASE_TTL, watcher, Cancelled);
    run := Extend(p, run, Retire(0, 1));
  }

  /**
   Where at most one monitor holds a task, it always finds its row exactly when the lag is at most
   one renewal interval.
   */
  lemma FindsExactlyWithinInterval(p: Params)
    requires Tight(p)
    ensures AlwaysFindsRows(p) <==> p.maxLag <= RENEW_INTERVAL
  {
    if p.maxLag <= RENEW_INTERVAL {
      forall run: seq<State>, i, key: Key | Run(p, run) && 0 <= i < |run| && run[i].Live(key)
        && !run[i].monitors[key].wrote
        ensures key.0 in run[i].rows
      {
        LiveMonitorFindsItsRow(p, run, i, key);
      }
    } else {
      var run := RetiredUnderWatch(p);
      var i := |run| - 1;
      assert run[i].Live(SECOND_CLAIM) && !run[i].monitors[SECOND_CLAIM].wrote;
    }
  }
}
