/** One lemma for each group of steps, and the conclusion that every step keeps the invariant. */
module LeaseSteps {
  import opened Common
  import opened TaskTable
  import opened LeaseGuard
  import opened LeaseProtocol
  import opened LeaseInvariant

  lemma TimePasses(p: Params, s: State, elapsed: nat)
    requires Inv(p, s)
    ensures Inv(p, s.(now := s.now + elapsed))
  {
    var s' := s.(now := s.now + elapsed);
    forall key | key in s'.monitors ensures MonitorInv(p, s', key) {
      assert MonitorInv(p, s, key);
      DeadStaysDead(p, s.monitors[key], s.now, s'.now);
    }
    forall id | id in s'.rows ensures RowInv(s', id) {
      assert RowInv(s, id);
    }
    forall w | w in s'.sweeps ensures SweepInv(s', w) {
      assert SweepInv(s, w);
    }
  }

  lemma Accepting(p: Params, s: State, id: TaskId, owner: Owner)
    requires Inv(p, s) && id !in s.epochs && owner !in s.released
    ensures Inv(p, Admitted(s, id, owner))
  {
    var s' := Admitted(s, id, owner);
    forall key | key in s'.monitors ensures MonitorInv(p, s', key) {
      if key in s.monitors { assert MonitorInv(p, s, key); }
    }
    forall other | other in s'.rows ensures RowInv(s', other) {
      if other != id { assert RowInv(s, other); }
    }
    forall w | w in s'.sweeps ensures SweepInv(s', w) {
      assert SweepInv(s, w);
    }
  }

  lemma ClaimingAccepted(p: Params, s: State, id: TaskId)
    requires Tight(p) && Inv(p, s) && s.Active((id, 1)) && s.monitors[(id, 1)].phase.Accepted?
    requires s.now <= s.monitors[(id, 1)].anchor + p.maxLag && !s.Locked(id)
    ensures Inv(p, AdmissionClaimed(s, id))
  {
    var s' := AdmissionClaimed(s, id);
    var key := (id, 1);
    assert MonitorInv(p, s, key);
    assert s.Current(key);
    forall k | k in s'.monitors ensures MonitorInv(p, s', k) {
      assert MonitorInv(p, s, k);
      if k == key {
        assert Outstanding(s'.monitors[k]) == Outstanding(s.monitors[k]);
        if id in s.rows { assert RowInv(s, id); }
      }
    }
    forall other | other in s'.rows ensures RowInv(s', other) {
      assert RowInv(s, other);
    }
    forall w | w in s'.sweeps ensures SweepInv(s', w) {
      assert SweepInv(s, w);
      forall other | other in s'.sweeps[w].ids
        ensures other in s'.rows && s'.rows[other].status.InProgress? && Expiry(s'.rows[other]) < s'.sweeps[w].at
      {
        assert other != id;
      }
    }
  }

  /** What the thread of one monitor may do keeps it anchored, gone or dead. */
  lemma ThreadKeepsStanding(p: Params, s: State, step: Step, expiry: Time)
    requires Tight(p) && Enabled(p, s, step)
    requires step.StartGuard? || step.Check? || step.Issue? || step.Answer? || step.StopWatching?
    ensures var m, m' := s.monitors[step.key], Apply(p, s, step).monitors[step.key];
      && (Anchored(p, m, expiry) ==> Anchored(p, m', expiry))
      && (Gone(p, m, s.now) ==> Gone(p, m', s.now))
      && (Dead(p, m, s.now) ==> Dead(p, m', s.now))
  {
    var m, m' := s.monitors[step.key], Apply(p, s, step).monitors[step.key];
    if step.Check? && !Aged(m.guard, s.now) {
      assert Outstanding(m') == m.strays + {s.now};
      assert Outstanding(m) == m.strays;
    } else {
      assert Outstanding(m') <= Outstanding(m);
    }
  }

  /** Steps of one monitor that leave the table alone. */
  lemma Watching(p: Params, s: State, step: Step)
    requires Tight(p) && Inv(p, s) && Enabled(p, s, step)
    requires step.StartGuard? || step.Check? || step.Issue? || step.Answer? || step.StopWatching?
    ensures Inv(p, Apply(p, s, step))
  {
    var key := step.key;
    var m := Apply(p, s, step).monitors[key];
    assert MonitorInv(p, s, key);
    ThreadKeepsStanding(p, s, step, if key.0 in s.rows then Expiry(s.rows[key.0]) else 0);
    MonitorMoves(p, s, key, m);
  }

  /** A renewal reaching the store, whether its monitor still waits for it or not. */
  lemma Renewing(p: Params, s: State, step: Step)
    requires Tight(p) && Inv(p, s) && Enabled(p, s, step)
    requires step.Execute? || step.ExecuteStray?
    ensures Inv(p, Apply(p, s, step))
  {
    var key := step.key;
    var s' := Apply(p, s, step);
    var before, m := s.monitors[key], s'.monitors[key];
    assert MonitorInv(p, s, key);
    assert Outstanding(m) <= Outstanding(before);
    assert (if step.Execute? then before.renewal.at else step.at) in Outstanding(before);
    if !HeldBy(s.rows, key.0, before.owner) {
      assert s' == s.With(key, m);
      MonitorMoves(p, s, key, m);
    } else {
      var id := key.0;
      var row := s.rows[id].(lease := Some(s.now + LEASE_TTL));
      var renewed := s.(rows := s.rows[id := row]);
      assert RowInv(s, id);
      RowMoves(p, s, id, row);
      assert MonitorInv(p, renewed, key);
      assert s' == renewed.With(key, m);
      assert s.Active(key) ==> s.Current(key);
      MonitorMoves(p, renewed, key, m);
    }
  }

  /** A monitor recording an outcome. Only the current claim's monitor can. */
  lemma Finishing(p: Params, s: State, step: Step)
    requires Tight(p) && Inv(p, s) && Enabled(p, s, step)
    requires step.Finish? || step.AbandonedAbort?
    ensures Inv(p, Apply(p, s, step))
    ensures s.Current(step.key)
  {
    var key := step.key;
    assert MonitorInv(p, s, key);
    if step.Finish? {
      Recording(p, s, key, s.monitors[key].guard, step.status);
    } else {
      Recording(p, s, key, Guard(true, s.now), Aborted);
    }
  }

  lemma Recording(p: Params, s: State, key: Key, guard: Guard, status: Status)
    requires Inv(p, s) && s.Active(key) && s.Current(key) && !s.Locked(key.0)
    requires guard.lost || (Started(s.monitors[key]) && guard == s.monitors[key].guard)
    requires !status.InProgress?
    ensures var m := s.monitors[key].(phase := Ended, guard := guard, wrote := true);
      Inv(p, s.With(key, m).(rows := WithStatus(s.rows, key.0, status)))
  {
    var m := s.monitors[key].(phase := Ended, guard := guard, wrote := true);
    var s' := s.With(key, m).(rows := WithStatus(s.rows, key.0, status));
    assert MonitorInv(p, s, key);
    assert Outstanding(m) == Outstanding(s.monitors[key]);
    forall k | k in s'.monitors ensures MonitorInv(p, s', k) {
      if k != key { Undisturbed(p, s, s', k); }
    }
    forall other | other in s'.rows ensures RowInv(s', other) {
      assert RowInv(s, other);
    }
    forall w | w in s'.sweeps ensures SweepInv(s', w) {
      assert SweepInv(s, w);
    }
  }

  /** A monitor is not disturbed by a step that keeps the clock, the claims and the deadlines. */
  lemma Undisturbed(p: Params, s: State, s': State, k: Key)
    requires k in s.monitors && MonitorInv(p, s, k)
    requires s'.now == s.now && s'.epochs == s.epochs && s'.released == s.released
    requires s'.rows.Keys == s.rows.Keys
    requires forall id :: id in s.rows ==>
      Expiry(s'.rows[id]) == Expiry(s.rows[id]) && (s'.rows[id].status.InProgress? ==> s.rows[id].status.InProgress?)
    requires s'.monitors.Keys == s.monitors.Keys && s'.monitors[k] == s.monitors[k]
    requires forall other :: other in s.monitors ==>
      s'.monitors[other].anchor == s.monitors[other].anchor && s'.monitors[other].owner == s.monitors[other].owner
    ensures MonitorInv(p, s', k)
  {
  }

  /** The other writers of a status, and the hourly deletions. */
  lemma Housekeeping(p: Params, s: State, step: Step)
    requires Tight(p) && Inv(p, s) && Enabled(p, s, step)
    requires step.Cancel? || step.AbortStale? || step.Forget? || step.Retire?
    ensures Inv(p, Apply(p, s, step))
  {
    var id := step.id;
    assert RowInv(s, id);
    if step.Cancel? {
      RowMoves(p, s, id, s.rows[id].(status := Cancelled));
    } else if step.AbortStale? {
      RowMoves(p, s, id, s.rows[id].(status := Aborted));
    } else {
      var key := (id, s.epochs[id]);
      assert MonitorInv(p, s, key);
      if step.Retire? {
        assert Expiry(s.rows[id]) <= s.now;
      }
      RowGoes(p, s, id);
    }
  }

  lemma LockingRows(p: Params, s: State, w: nat, owner: Owner, ids: set<TaskId>)
    requires Inv(p, s) && w !in s.sweeps && owner !in s.released && ids <= SweepCandidates(s)
    ensures Inv(p, s.(sweeps := s.sweeps[w := Sweep(owner, s.now, ids)]))
  {
    var s' := s.(sweeps := s.sweeps[w := Sweep(owner, s.now, ids)]);
    forall key | key in s'.monitors ensures MonitorInv(p, s', key) {
      assert MonitorInv(p, s, key);
    }
    forall id | id in s'.rows ensures RowInv(s', id) {
      assert RowInv(s, id);
    }
    forall v | v in s'.sweeps ensures SweepInv(s', v) {
      if v != w { assert SweepInv(s, v); }
    }
  }

  lemma RollingBack(p: Params, s: State, w: nat)
    requires Inv(p, s) && w in s.sweeps
    ensures Inv(p, s.(sweeps := s.sweeps - {w}))
  {
    var s' := s.(sweeps := s.sweeps - {w});
    forall key | key in s'.monitors ensures MonitorInv(p, s', key) {
      assert MonitorInv(p, s, key);
    }
    forall id | id in s'.rows ensures RowInv(s', id) {
      assert RowInv(s, id);
    }
    forall v | v in s'.sweeps ensures SweepInv(s', v) {
      assert SweepInv(s, v);
    }
  }

  lemma Releasing(p: Params, s: State, owner: Owner)
    requires Inv(p, s) && MayRelease(s, owner)
    ensures Inv(p, s.(rows := Release(s.rows, owner, s.now), released := s.released + {owner}))
  {
    var s' := s.(rows := Release(s.rows, owner, s.now), released := s.released + {owner});
    forall key | key in s'.monitors ensures MonitorInv(p, s', key) {
      assert MonitorInv(p, s, key);
      if key.0 in s.rows { assert RowInv(s, key.0); }
    }
    forall id | id in s'.rows ensures RowInv(s', id) {
      assert RowInv(s, id);
    }
    forall w | w in s'.sweeps ensures SweepInv(s', w) {
      assert SweepInv(s, w);
      forall id | id in s'.sweeps[w].ids
        ensures id in s'.rows && s'.rows[id].status.InProgress? && Expiry(s'.rows[id]) < s'.sweeps[w].at
      {
        assert s.Locked(id);
      }
    }
  }

  /** What a committing sweep does, row by row and claim by claim. */
  ghost predicate SweptTo(s: State, s': State, sweep: Sweep) {
    s'.now == s.now && s'.released == s.released && RowsSwept(s, s', sweep) && ClaimsSwept(s, s', sweep)
  }

  ghost predicate RowsSwept(s: State, s': State, sweep: Sweep) {
    && s'.rows.Keys == s.rows.Keys && s'.epochs.Keys == s.epochs.Keys
    && (forall id :: id in s.rows && id !in sweep.ids ==> s'.rows[id] == s.rows[id])
    && (forall id :: id in s.rows && id in sweep.ids ==> s'.rows[id] == ClaimedRow(s.rows[id], sweep.owner, sweep.at))
    && (forall id :: id in s.epochs && id !in sweep.ids ==> s'.epochs[id] == s.epochs[id])
    && (forall id :: id in s.epochs && id in sweep.ids ==> s'.epochs[id] == s.epochs[id] + 1)
  }

  ghost predicate ClaimsSwept(s: State, s': State, sweep: Sweep) {
    && (forall key :: key in s.monitors ==> key in s'.monitors && s'.monitors[key] == s.monitors[key])
    && (forall key :: key in s'.monitors && key !in s.monitors ==>
          key.0 in sweep.ids && key.0 in s'.epochs && key.1 == s'.epochs[key.0]
          && s'.monitors[key] == NewMonitor(sweep.owner, Claimed, sweep.at))
    && (forall id :: id in sweep.ids && id in s'.epochs ==>
      (id, s'.epochs[id]) in s'.monitors && (id, s'.epochs[id]) !in s.monitors)
  }

  lemma ClaimNumber(p: Params, s: State, key: Key)
    requires Inv(p, s) && key in s.monitors
    ensures key.0 in s.epochs && key.1 <= s.epochs[key.0]
  {
    assert MonitorInv(p, s, key);
  }

  /** Claims are numbered up to the current one. */
  lemma ClaimNumbers(p: Params, s: State)
    requires Inv(p, s)
    ensures forall key :: key in s.monitors ==> key.0 in s.epochs && key.1 <= s.epochs[key.0]
  {
    forall key | key in s.monitors ensures key.0 in s.epochs && key.1 <= s.epochs[key.0] {
      ClaimNumber(p, s, key);
    }
  }

  lemma CommittedSweeps(p: Params, s: State, w: nat)
    requires Inv(p, s) && w in s.sweeps && s.sweeps[w].ids <= s.epochs.Keys
    ensures SweptTo(s, Committed(s, w), s.sweeps[w])
  {
    forall id | id in s.sweeps[w].ids ensures (id, s.epochs[id] + 1) !in s.monitors {
      NotYetClaimed(p, s, id);
    }
    CommittedRows(s, w);
    CommittedClaims(s, w);
    hide RowsSwept, ClaimsSwept;
  }

  lemma NewClaimsAre(epochs: map<TaskId, nat>, sweep: Sweep)
    requires sweep.ids <= epochs.Keys
    ensures forall key :: key in NewClaims(epochs, sweep) <==> key.0 in sweep.ids && key.1 == epochs[key.0] + 1
    ensures forall key :: key in NewClaims(epochs, sweep) ==>
      NewClaims(epochs, sweep)[key] == NewMonitor(sweep.owner, Claimed, sweep.at)
  {
    var claims := NewClaims(epochs, sweep);
    forall key: Key | key.0 in sweep.ids && key.1 == epochs[key.0] + 1 ensures key in claims {
      assert key == (key.0, epochs[key.0] + 1);
    }
  }

  lemma CommittedRows(s: State, w: nat)
    requires w in s.sweeps && s.sweeps[w].ids <= s.epochs.Keys
    ensures RowsSwept(s, Committed(s, w), s.sweeps[w])
  {
    hide NewClaims;
  }

  lemma CommittedClaims(s: State, w: nat)
    requires w in s.sweeps && s.sweeps[w].ids <= s.epochs.Keys
    requires forall id :: id in s.sweeps[w].ids ==> (id, s.epochs[id] + 1) !in s.monitors
    ensures ClaimsSwept(s, Committed(s, w), s.sweeps[w])
  {
    NewClaimsAre(s.epochs, s.sweeps[w]);
    CommittedRows(s, w);
    var s', claims := Committed(s, w), NewClaims(s.epochs, s.sweeps[w]);
    assert s'.monitors == s.monitors + claims;
    hide NewClaims, Committed;
    forall key | key in claims ensures key !in s.monitors {
      assert key == (key.0, s.epochs[key.0] + 1);
    }
    ClaimsJoin(s, s', s.sweeps[w], claims);
  }

  lemma ClaimsJoin(s: State, s': State, sweep: Sweep, claims: map<Key, Monitor>)
    requires sweep.ids <= s.epochs.Keys && RowsSwept(s, s', sweep) && s'.monitors == s.monitors + claims
    requires forall key :: key in claims <==> key.0 in sweep.ids && key.1 == s.epochs[key.0] + 1
    requires forall key :: key in claims ==> claims[key] == NewMonitor(sweep.owner, Claimed, sweep.at)
    requires forall key :: key in claims ==> key !in s.monitors
    ensures ClaimsSwept(s, s', sweep)
  {
    forall id | id in sweep.ids && id in s'.epochs
      ensures (id, s'.epochs[id]) in s'.monitors && (id, s'.epochs[id]) !in s.monitors
    {
      assert (id, s.epochs[id] + 1) in claims;
    }
  }

  lemma NotYetClaimed(p: Params, s: State, id: TaskId)
    requires Inv(p, s) && id in s.epochs
    ensures (id, s.epochs[id] + 1) !in s.monitors
  {
    ClaimNumbers(p, s);
  }

  /** A sweep committing: every claim it supersedes is dead by then. */
  lemma Committing(p: Params, s: State, s': State, w: nat)
    requires Tight(p) && Inv(p, s) && w in s.sweeps
    requires SweptTo(s, s', s.sweeps[w]) && s'.sweeps == s.sweeps - {w}
    ensures Inv(p, s')
  {
    assert SweepInv(s, w);
    forall key | key in s'.monitors ensures MonitorInv(p, s', key) {
      CommittedMonitor(p, s, s', s.sweeps[w], key);
    }
    forall id | id in s'.rows ensures RowInv(s', id) {
      CommittedRow(p, s, s', s.sweeps[w], id);
    }
    forall v | v in s'.sweeps ensures SweepInv(s', v) {
      assert SweepInv(s, v);
    }
  }

  lemma CommittedRow(p: Params, s: State, s': State, sweep: Sweep, id: TaskId)
    requires Inv(p, s) && SweptTo(s, s', sweep) && sweep.at <= s.now && sweep.owner !in s.released
    requires id in s.rows && (id in sweep.ids ==> Expiry(s.rows[id]) < sweep.at && s.rows[id].status.InProgress?)
    ensures RowInv(s', id)
  {
    assert RowInv(s, id);
    if id in sweep.ids {
      assert s'.monitors[(id, s'.epochs[id])] == NewMonitor(sweep.owner, Claimed, sweep.at);
    } else {
      assert (id, s.epochs[id]) in s.monitors;
    }
  }

  lemma CommittedMonitor(p: Params, s: State, s': State, sweep: Sweep, key: Key)
    requires Tight(p) && Inv(p, s) && SweptTo(s, s', sweep) && sweep.at <= s.now
    requires forall id :: id in sweep.ids ==>
      id in s.rows && s.rows[id].status.InProgress? && Expiry(s.rows[id]) < sweep.at
    requires key in s'.monitors
    ensures MonitorInv(p, s', key)
  {
    hide MonitorInv, RowInv, SweepInv;
    if key !in s.monitors {
      assert s'.monitors[key] == NewMonitor(sweep.owner, Claimed, sweep.at);
      assert s'.rows[key.0] == ClaimedRow(s.rows[key.0], sweep.owner, sweep.at);
      NewClaim(p, s', key, sweep);
    } else {
      ClaimNumber(p, s, key);
      if key.0 in sweep.ids {
        Superseded(p, s, s', sweep, key);
      } else {
        Bystander(p, s, s', key);
      }
    }
  }

  /** The claim a sweep has just made. */
  lemma NewClaim(p: Params, s: State, key: Key, sweep: Sweep)
    requires s.Current(key) && key.1 >= 1 && key in s.monitors && key.0 in s.rows && sweep.at <= s.now
    requires s.monitors[key] == NewMonitor(sweep.owner, Claimed, sweep.at)
    requires Expiry(s.rows[key.0]) == sweep.at + LEASE_TTL
    ensures MonitorInv(p, s, key)
  {
  }

  /** A claim on a swept row, after the sweep: out of date, and dead. */
  lemma Superseded(p: Params, s: State, s': State, sweep: Sweep, key: Key)
    requires Tight(p) && Inv(p, s)
    requires key in s.monitors && key.0 in sweep.ids && key.0 in s.rows && key.0 in s.epochs
    requires s.rows[key.0].status.InProgress? && Expiry(s.rows[key.0]) < sweep.at <= s.now
    requires s'.now == s.now && s'.released == s.released
    requires s.monitors.Keys <= s'.monitors.Keys
    requires forall k :: k in s.monitors ==> s'.monitors[k] == s.monitors[k]
    requires key.0 in s'.epochs && s'.epochs[key.0] == s.epochs[key.0] + 1
    requires (key.0, s.epochs[key.0] + 1) in s'.monitors && s'.monitors[(key.0, s.epochs[key.0] + 1)].anchor == sweep.at
    ensures MonitorInv(p, s', key)
  {
    assert MonitorInv(p, s, key);
    if s.Current(key) {
      if s.Active(key) { LapseKills(p, s.monitors[key], Expiry(s.rows[key.0]), s.now); }
      assert !s.monitors[key].wrote;
    }
  }

  /** A claim on a row the sweep did not touch. */
  lemma Bystander(p: Params, s: State, s': State, key: Key)
    requires Inv(p, s) && key in s.monitors
    requires s'.now == s.now && s'.released == s.released
    requires s.monitors.Keys <= s'.monitors.Keys
    requires forall k :: k in s.monitors ==> s'.monitors[k] == s.monitors[k]
    requires key.0 in s.epochs && key.0 in s'.epochs && s'.epochs[key.0] == s.epochs[key.0]
    requires key.0 in s.rows <==> key.0 in s'.rows
    requires key.0 in s.rows ==> s'.rows[key.0] == s.rows[key.0]
    ensures MonitorInv(p, s', key)
  {
    assert MonitorInv(p, s, key);
  }

  lemma StepKeepsInv(p: Params, s: State, step: Step)
    requires Tight(p) && Inv(p, s) && Enabled(p, s, step)
    ensures Inv(p, Apply(p, s, step))
  {
    if step.Advance? { TimePasses(p, s, step.elapsed); }
    else if step.Admit? { Accepting(p, s, step.id, step.owner); }
    else if step.ClaimAdmitted? { ClaimingAccepted(p, s, step.id); }
    else if step.StartGuard? || step.Check? || step.Issue? || step.Answer? || step.StopWatching? {
      Watching(p, s, step);
    }
    else if step.Execute? || step.ExecuteStray? { Renewing(p, s, step); }
    else if step.Finish? || step.AbandonedAbort? { Finishing(p, s, step); }
    else if step.Lock? { LockingRows(p, s, step.sweep, step.owner, step.ids); }
    else if step.Commit? { CommittedSweeps(p, s, step.sweep); Committing(p, s, Committed(s, step.sweep), step.sweep); }
    else if step.Rollback? { RollingBack(p, s, step.sweep); }
    else if step.ReleaseAll? { Releasing(p, s, step.owner); }
    else { Housekeeping(p, s, step); }
  }
}
