/** Which status a row ends with: who may change it, to what, and that a recorded outcome stands. */
module LeaseOutcomes {
  import opened Common
  import opened TaskTable
  import opened LeaseGuard
  import opened LeaseProtocol
  import opened LeaseInvariant
  import opened LeaseSteps
  import opened LeaseSafety

  /** What this step makes of the status of this row. */
  function StatusAfter(step: Step, id: TaskId, status: Status): Status {
    match step
    case Finish(key, outcome) => if key.0 == id then outcome else status
    case AbandonedAbort(key) => if key.0 == id then Aborted else status
    case Cancel(other) => if other == id then Cancelled else status
    case AbortStale(other) => if other == id then Aborted else status
    case _ => status
  }

  /** Rows come by admission, in progress, and go by the two deletions; only four kinds of step change a status. */
  ghost predicate RowMoved(s: State, step: Step, s': State, id: TaskId) {
    && (id in s'.rows <==>
          (id in s.rows && !((step.Forget? || step.Retire?) && step.id == id)) || (step.Admit? && step.id == id))
    && (id in s.rows && id in s'.rows && !(step.Admit? && step.id == id) ==>
          s'.rows[id].status == StatusAfter(step, id, s.rows[id].status))
    && (step.Admit? && step.id == id ==> s'.rows[id].status == InProgress)
  }

  lemma RecordingMovesRow(p: Params, s: State, step: Step, id: TaskId)
    requires Enabled(p, s, step)
    requires step.Finish? || step.AbandonedAbort? || step.Cancel? || step.AbortStale?
    ensures RowMoved(s, step, Apply(p, s, step), id)
  {
  }

  lemma ClaimingMovesRow(p: Params, s: State, step: Step, id: TaskId)
    requires Enabled(p, s, step)
    requires step.Commit? || step.ReleaseAll? || step.ClaimAdmitted? || step.Execute? || step.ExecuteStray?
    ensures RowMoved(s, step, Apply(p, s, step), id)
  {
  }

  lemma OtherMovesRow(p: Params, s: State, step: Step, id: TaskId)
    requires Enabled(p, s, step)
    requires !(step.Finish? || step.AbandonedAbort? || step.Cancel? || step.AbortStale?)
    requires !(step.Commit? || step.ReleaseAll? || step.ClaimAdmitted? || step.Execute? || step.ExecuteStray?)
    ensures RowMoved(s, step, Apply(p, s, step), id)
  {
  }

  lemma RowAfter(p: Params, s: State, step: Step, id: TaskId)
    requires Enabled(p, s, step)
    ensures RowMoved(s, step, Apply(p, s, step), id)
  {
    hide Enabled, Apply, RowMoved;
    if step.Finish? || step.AbandonedAbort? || step.Cancel? || step.AbortStale? {
      RecordingMovesRow(p, s, step, id);
    } else if step.Commit? || step.ReleaseAll? || step.ClaimAdmitted? || step.Execute? || step.ExecuteStray? {
      ClaimingMovesRow(p, s, step, id);
    } else {
      OtherMovesRow(p, s, step, id);
    }
  }

  /** While a monitor has written its outcome, no step changes the status of its row. */
  lemma WrittenStays(p: Params, s: State, step: Step, key: Key)
    requires Tight(p) && Inv(p, s) && Enabled(p, s, step)
    requires key in s.monitors && s.monitors[key].wrote
    ensures key.0 in Apply(p, s, step).rows ==>
      key.0 in s.rows && Apply(p, s, step).rows[key.0].status == s.rows[key.0].status
  {
    assert MonitorInv(p, s, key);
    RowAfter(p, s, step, key.0);
    if step.Finish? || step.AbandonedAbort? {
      Finishing(p, s, step);
      assert step.key.0 == key.0 ==> step.key == key;
    }
  }

  /** The step taken at i records this outcome for the row of this monitor. */
  ghost predicate Records(p: Params, run: seq<State>, i: nat, key: Key, outcome: Status)
    requires i + 1 < |run|
  {
    exists step :: Enabled(p, run[i], step) && run[i + 1] == Apply(p, run[i], step)
      && (step == Finish(key, outcome) || (step == AbandonedAbort(key) && outcome == Aborted))
  }

  lemma RecordedNow(p: Params, s: State, step: Step, key: Key, outcome: Status)
    requires Tight(p) && Inv(p, s) && Enabled(p, s, step)
    requires step == Finish(key, outcome) || (step == AbandonedAbort(key) && outcome == Aborted)
    ensures var s' := Apply(p, s, step);
      && key in s'.monitors && s'.monitors[key].wrote
      && (key.0 in s'.rows ==> s'.rows[key.0].status == outcome)
  {
    RowAfter(p, s, step, key.0);
    hide Inv;
  }

  lemma StillRecorded(p: Params, s: State, s': State, key: Key)
    requires Tight(p) && Inv(p, s) && Next(p, s, s') && key in s.monitors && s.monitors[key].wrote
    ensures key in s'.monitors && s'.monitors[key].wrote
    ensures key.0 in s'.rows ==> key.0 in s.rows && s'.rows[key.0].status == s.rows[key.0].status
  {
    NextGoesOnward(p, s, s');
    hide Inv, Enabled, Apply;
    var step :| Enabled(p, s, step) && s' == Apply(p, s, step);
    WrittenStays(p, s, step, key);
  }

  /** An outcome once recorded is what the row shows for as long as there is a row. */
  lemma {:induction false} OutcomeStands(p: Params, run: seq<State>, i: nat, j: nat, key: Key, outcome: Status)
    requires Tight(p) && Run(p, run) && i < j < |run| && Records(p, run, i, key, outcome)
    ensures key in run[j].monitors && run[j].monitors[key].wrote
    ensures key.0 in run[j].rows ==> run[j].rows[key.0].status == outcome
  {
    hide Enabled, Apply, Inv, Next;
    RunKeepsInv(p, run, j - 1);
    assert NextAt(p, run, j - 1);
    if i + 1 == j {
      var step :| Enabled(p, run[i], step) && run[i + 1] == Apply(p, run[i], step)
        && (step == Finish(key, outcome) || (step == AbandonedAbort(key) && outcome == Aborted));
      RecordedNow(p, run[i], step, key, outcome);
    } else {
      OutcomeStands(p, run, i, j - 1, key, outcome);
      StillRecorded(p, run[j - 1], run[j], key);
    }
  }

  /** A task cancelled or aborted from outside stays so too, unless its own monitor still records an outcome. */
  lemma OnlyItsMonitorOverrules(p: Params, s: State, step: Step, id: TaskId)
    requires Tight(p) && Inv(p, s) && Enabled(p, s, step)
    requires id in s.rows && !s.rows[id].status.InProgress? && id in Apply(p, s, step).rows
    ensures var now, before := Apply(p, s, step).rows[id].status, s.rows[id].status;
      now == before
      || (&& (step.Finish? || step.AbandonedAbort?) && step.key.0 == id && s.Current(step.key)
          && now == (if step.Finish? then step.status else Aborted))
  {
    RowAfter(p, s, step, id);
    if step.Finish? || step.AbandonedAbort? { Finishing(p, s, step); }
  }
}
