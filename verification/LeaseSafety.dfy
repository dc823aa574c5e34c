/** What holds in every run of the lease protocol. */
module LeaseSafety {
  import opened Common
  import opened TaskTable
  import opened LeaseGuard
  import opened LeaseProtocol
  import opened LeaseInvariant
  import opened LeaseSteps

  /** At no instant do two monitors of one task both believe they hold it. */
  ghost predicate Exclusive(s: State) {
    forall k1, k2 :: s.Live(k1) && s.Live(k2) && k1.0 == k2.0 ==> k1 == k2
  }

  ghost predicate AlwaysExclusive(p: Params) {
    forall run, i :: Run(p, run) && 0 <= i < |run| ==> Exclusive(run[i])
  }

  lemma {:induction false} RunKeepsInv(p: Params, run: seq<State>, i: nat)
    requires Tight(p) && Run(p, run) && i < |run|
    ensures Inv(p, run[i])
  {
    if i > 0 {
      RunKeepsInv(p, run, i - 1);
      assert NextAt(p, run, i - 1);
      NextGoesOnward(p, run[i - 1], run[i]);
    }
  }

  lemma InvIsExclusive(p: Params, s: State)
    requires Inv(p, s)
    ensures Exclusive(s)
    ensures forall key :: s.Live(key) ==> s.Current(key)
  {
    forall key | s.Live(key) ensures s.Current(key) {
      assert MonitorInv(p, s, key);
    }
  }

  /** The margin the guard keeps is enough whenever lag and statement time fit into it. */
  lemma TightIsExclusive(p: Params)
    requires Tight(p)
    ensures AlwaysExclusive(p)
  {
    forall run, i | Run(p, run) && 0 <= i < |run| ensures Exclusive(run[i]) {
      RunKeepsInv(p, run, i);
      InvIsExclusive(p, run[i]);
    }
  }

  /** What no step undoes. */
  ghost predicate Onward(s: State, s': State) {
    && s.now <= s'.now
    && s.released <= s'.released
    && (forall id :: id in s.epochs ==> id in s'.epochs && s.epochs[id] <= s'.epochs[id])
    && (forall key :: key in s.monitors ==>
          key in s'.monitors && s'.monitors[key].owner == s.monitors[key].owner
            && (s.monitors[key].wrote ==> s'.monitors[key].wrote))
    && (forall id :: id in s.rows && id in s'.rows && s'.rows[id].status.InProgress? ==> s.rows[id].status.InProgress?)
    && (forall id :: id in s.epochs && id in s'.rows ==> id in s.rows)
    && (forall id, r :: id in s.epochs && id in s'.rows && r in s.released && s'.rows[id].owner == Some(r) ==>
      s.rows[id].owner == Some(r))
  }

  lemma StepGoesOnward(p: Params, s: State, step: Step)
    requires Inv(p, s) && Enabled(p, s, step)
    ensures Onward(s, Apply(p, s, step))
  {
    if step.Admit? {
      AdmissionGoesOnward(p, s, step.id, step.owner);
    } else if step.Commit? {
      assert SweepInv(s, step.sweep);
      CommittedSweeps(p, s, step.sweep);
      SweepGoesOnward(s, Apply(p, s, step), s.sweeps[step.sweep]);
    } else if step.ReleaseAll? {
      assert Onward(s, s.(rows := Release(s.rows, step.owner, s.now), released := s.released + {step.owner}));
    } else if step.ClaimAdmitted? {
      assert Onward(s, AdmissionClaimed(s, step.id));
    } else if step.Finish? || step.AbandonedAbort? || step.Execute? || step.ExecuteStray? {
      MonitorStepGoesOnward(p, s, step);
    } else {
      QuietStepGoesOnward(p, s, step);
    }
  }

  lemma QuietStepGoesOnward(p: Params, s: State, step: Step)
    requires Enabled(p, s, step)
    requires !(step.Admit? || step.Commit? || step.ReleaseAll? || step.ClaimAdmitted?)
    requires !(step.Finish? || step.AbandonedAbort? || step.Execute? || step.ExecuteStray?)
    ensures Onward(s, Apply(p, s, step))
  {
  }

  lemma MonitorStepGoesOnward(p: Params, s: State, step: Step)
    requires Enabled(p, s, step)
    requires step.Finish? || step.AbandonedAbort? || step.Execute? || step.ExecuteStray?
    ensures Onward(s, Apply(p, s, step))
  {
  }

  lemma AdmissionGoesOnward(p: Params, s: State, id: TaskId, owner: Owner)
    requires Inv(p, s) && id !in s.epochs
    ensures Onward(s, Admitted(s, id, owner))
  {
    assert (id, 1) in s.monitors ==> MonitorInv(p, s, (id, 1));
  }

  lemma SweepGoesOnward(s: State, s': State, sweep: Sweep)
    requires SweptTo(s, s', sweep) && sweep.owner !in s.released && s.rows.Keys <= s.epochs.Keys
    ensures Onward(s, s')
  {
  }

  lemma OnwardTrans(s: State, t: State, u: State)
    requires Onward(s, t) && Onward(t, u) && s.rows.Keys <= s.epochs.Keys && t.rows.Keys <= t.epochs.Keys
    ensures Onward(s, u)
  {
  }

  lemma NextGoesOnward(p: Params, s: State, s': State)
    requires Tight(p) && Inv(p, s) && Next(p, s, s')
    ensures Inv(p, s') && Onward(s, s')
  {
    var step :| Enabled(p, s, step) && s' == Apply(p, s, step);
    StepKeepsInv(p, s, step);
    StepGoesOnward(p, s, step);
  }

  lemma {:induction false} RunGoesOnward(p: Params, run: seq<State>, i: nat, j: nat)
    requires Tight(p) && Run(p, run) && i <= j < |run|
    ensures Onward(run[i], run[j])
    decreases j
  {
    if i < j {
      RunGoesOnward(p, run, i, j - 1);
      RunKeepsInv(p, run, i);
      RunKeepsInv(p, run, j - 1);
      assert NextAt(p, run, j - 1);
      NextGoesOnward(p, run[j - 1], run[j]);
      OnwardTrans(run[i], run[j - 1], run[j]);
    }
  }

  /**
   From the instant a newer claim exists, every older monitor is lost at every instant, whatever answer
   it still awaits.
   */
  lemma OlderMonitorsStayLost(p: Params, run: seq<State>, i: nat, j: nat, key: Key)
    requires Tight(p) && Run(p, run) && i <= j < |run|
    requires key.0 in run[i].epochs && key.1 < run[i].epochs[key.0]
    requires run[j].Active(key) && Started(run[j].monitors[key])
    ensures Lost(run[j].monitors[key].guard, run[j].now)
  {
    RunGoesOnward(p, run, i, j);
    RunKeepsInv(p, run, j);
    assert MonitorInv(p, run[j], key);
  }

  /** Over a whole run, whoever writes a task's outcome is the only one that ever does, unguarded aborts included. */
  lemma OneOutcomePerTask(p: Params, run: seq<State>, i: nat, j: nat, k1: Key, k2: Key)
    requires Tight(p) && Run(p, run) && i <= j < |run|
    requires k1 in run[i].monitors && run[i].monitors[k1].wrote
    requires k2 in run[j].monitors && run[j].monitors[k2].wrote
    requires k1.0 == k2.0
    ensures k1 == k2
    ensures k1.0 in run[j].rows ==> !run[j].rows[k1.0].status.InProgress?
  {
    RunGoesOnward(p, run, i, j);
    RunKeepsInv(p, run, j);
    assert MonitorInv(p, run[j], k1) && MonitorInv(p, run[j], k2);
  }

  /** A task that left the in-progress state never comes back to it. */
  lemma NeverReopened(p: Params, run: seq<State>, i: nat, j: nat, id: TaskId)
    requires Tight(p) && Run(p, run) && i <= j < |run|
    requires id in run[i].rows && !run[i].rows[id].status.InProgress? && id in run[j].rows
    ensures !run[j].rows[id].status.InProgress?
  {
    RunGoesOnward(p, run, i, j);
  }

  /** A row handed over at shutdown is never owned by that replica again, late renewals included. */
  lemma ReleasedForGood(p: Params, run: seq<State>, i: nat, j: nat, id: TaskId, owner: Owner)
    requires Tight(p) && Run(p, run) && i <= j < |run|
    requires owner in run[i].released && id in run[i].rows && run[i].rows[id].status.InProgress?
    requires id in run[j].rows
    ensures run[j].rows[id].owner != Some(owner)
  {
    RunKeepsInv(p, run, i);
    assert RowInv(run[i], id);
    RunGoesOnward(p, run, i, j);
  }

  /**
   A monitor that still holds its claim and has not finished finds its row, however the
   stale sweep, the app-not-found deletion and retention interleave.
   */
  lemma LiveMonitorFindsItsRow(p: Params, run: seq<State>, i: nat, key: Key)
    requires Tight(p) && p.maxLag <= RENEW_INTERVAL && Run(p, run) && i < |run|
    requires run[i].Live(key) && !run[i].monitors[key].wrote
    ensures key.0 in run[i].rows
  {
    RunKeepsInv(p, run, i);
    assert MonitorInv(p, run[i], key);
  }

  /** Two claims of one task lie more than a TTL apart when none of the replicas in between released its claims. */
  lemma {:induction false} ClaimsLieApart(p: Params, run: seq<State>, i: nat, id: TaskId, e1: nat, e2: nat)
    requires Tight(p) && Run(p, run) && i < |run|
    requires e1 < e2 && (id, e1) in run[i].monitors && (id, e2) in run[i].monitors
    requires forall e :: e1 <= e < e2 ==> run[i].Active((id, e))
    ensures run[i].monitors[(id, e1)].anchor + LEASE_TTL < run[i].monitors[(id, e2)].anchor
    decreases e2 - e1
  {
    var s := run[i];
    RunKeepsInv(p, run, i);
    assert MonitorInv(p, s, (id, e1)) && MonitorInv(p, s, (id, e2));
    assert s.Active((id, e1));
    if e1 + 1 < e2 {
      ClaimsLieApart(p, run, i, id, e1 + 1, e2);
    }
  }

  /** Sweeps in flight on any replicas hold disjoint rows, each still unfinished and lapsed. */
  lemma SweepsAreDisjoint(p: Params, run: seq<State>, i: nat, v: nat, w: nat)
    requires Tight(p) && Run(p, run) && i < |run|
    requires v in run[i].sweeps && w in run[i].sweeps && v != w
    ensures run[i].sweeps[v].ids !! run[i].sweeps[w].ids
    ensures forall id :: id in run[i].sweeps[v].ids ==>
      id in run[i].rows && Claimable(run[i].rows[id], run[i].sweeps[v].at)
  {
    RunKeepsInv(p, run, i);
    assert SweepInv(run[i], v);
  }

  /** What a sweep locked is what it commits: no step in between changes a locked row. */
  lemma LockedRowsHold(p: Params, s: State, step: Step, w: nat, id: TaskId)
    requires Inv(p, s) && Enabled(p, s, step)
    requires w in s.sweeps && id in s.sweeps[w].ids
    requires step != Commit(w) && step != Rollback(w)
    ensures var s' := Apply(p, s, step);
      && w in s'.sweeps && s'.sweeps[w] == s.sweeps[w]
      && id in s.rows && id in s'.rows && s'.rows[id] == s.rows[id]
  {
    assert SweepInv(s, w);
    assert s.Locked(id);
    if step.Commit? {
      CommittedSweeps(p, s, step.sweep);
      assert id !in s.sweeps[step.sweep].ids;
    } else if step.Finish? || step.AbandonedAbort? || step.Execute? || step.ExecuteStray? {
      assert step.key.0 != id;
    }
  }
}
