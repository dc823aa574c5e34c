/** What the failure outcomes of a write-back claim: attempts made, and why it stopped. */
module GitReports {
  import opened Common
  import opened GitModel
  import opened GitAlone
  import opened GitTruth

  /** Outcomes an attempt settles; the others are given when the loop stops. */
  predicate Settling(outcomes: Outcomes) {
    forall i :: i in outcomes ==> !outcomes[i].Exhausted? && !outcomes[i].StoppedEarly?
  }

  lemma {:induction false} StagingSettles(st: Staging, batch: seq<Work>, active: seq<nat>, env: Attempt)
    requires Within(batch, active) && Settling(st.outcomes)
    ensures Settling(StageAll(st, batch, active, env).outcomes)
    decreases |active|
  {
    if active != [] {
      assert Settling(Stage(st, batch[active[0]], active[0], env).outcomes);
      hide Stage;
      StagingSettles(Stage(st, batch[active[0]], active[0], env), batch, active[1..], env);
    }
  }

  lemma AttemptSettles(batch: seq<Work>, left: Tree, history: seq<Tree>, outcomes: Outcomes, errors: Errors,
        env: Attempt)
    requires history != [] && Settling(outcomes)
    ensures var r := RunAttempt(batch, left, history, outcomes, errors, env); r.history != [] && Settling(r.outcomes)
  {
    AttemptKeepsBooks(batch, left, history, outcomes, errors, env);
    if env.clone.None? {
      StagingSettles(Cloned(ResetTo(Tip(history + env.before), left, env.keeps), outcomes, errors), batch,
        Unresolved(|batch|, outcomes), env);
    }
    hide StageAll, Unresolved, Settling;
  }

  lemma SettledSettles(n: nat, r: Attempted)
    requires Settling(r.outcomes)
    ensures Settling(Settled(n, r))
    ensures r.error.Some? && r.error.value.permanent ==> Unresolved(n, Settled(n, r)) == []
  {
    if r.error.Some? && r.error.value.permanent {
      AllResolved(n, Settled(n, r));
    }
  }

  lemma {:induction false} AllResolved(n: nat, outcomes: Outcomes)
    requires forall i :: 0 <= i < n ==> i in outcomes
    ensures Unresolved(n, outcomes) == []
  {
    if n > 0 { AllResolved(n - 1, outcomes); }
  }

  /**
   A failure that claims all attempts had them all, unless the wait after the last one made was
   cancelled; a failure that claims a drain had its last wait drained.
   */
  predicate HonestReport(envs: seq<Attempt>, made: nat, outcome: Outcome) {
    && (outcome.Exhausted? ==>
      outcome.attempts == |envs| && (made == |envs| || (0 < made < |envs| && envs[made - 1].wait.Cancelled?)))
    && (outcome.StoppedEarly? ==> 0 < made < |envs| && envs[made - 1].wait.Draining?)
  }

  ghost predicate HonestReports(envs: seq<Attempt>, result: Result) {
    forall i :: i in result.outcomes ==> HonestReport(envs, result.attempts, result.outcomes[i])
  }

  /** Why the loop may stop with requests left over. */
  predicate MayStop(envs: seq<Attempt>, made: nat, drained: bool) {
    if drained then 0 < made < |envs| && envs[made - 1].wait.Draining?
    else made == |envs| || (0 < made < |envs| && envs[made - 1].wait.Cancelled?)
  }

  lemma FinishReports(n: nat, envs: seq<Attempt>, outcomes: Outcomes, errors: Errors, last: Cause, history: seq<Tree>,
      made: nat, drained: bool)
    requires Settling(outcomes)
    requires Unresolved(n, outcomes) != [] ==> MayStop(envs, made, drained)
    ensures HonestReports(envs, Finish(n, outcomes, errors, last, history, made, |envs|, drained))
  {
    var rest := Rest(n, outcomes, errors, last, |envs|, drained);
    forall i | i in rest ensures HonestReport(envs, made, rest[i]) {
      if i !in outcomes {
        assert i in Unresolved(n, outcomes);
        hide Unresolved;
        assert rest[i] == Leftover(errors, last, |envs|, drained, i);
      }
    }
  }

  lemma {:induction false} RetryReports(batch: seq<Work>, envs: seq<Attempt>, k: nat, left: Tree, history: seq<Tree>,
        outcomes: Outcomes, errors: Errors, last: Cause)
    requires history != [] && k <= |envs| && Settling(outcomes)
    ensures HonestReports(envs, Retry(batch, envs, k, left, history, outcomes, errors, last))
    decreases |envs| - k, 1
  {
    if k == |envs| || Unresolved(|batch|, outcomes) == [] {
      FinishReports(|batch|, envs, outcomes, errors, last, history, k, false);
    } else {
      AttemptSettles(batch, left, history, outcomes, errors, envs[k]);
      SettledSettles(|batch|, RunAttempt(batch, left, history, outcomes, errors, envs[k]));
      hide HonestReports, RunAttempt, Settled, Finish;
      DecideReports(batch, envs, k, RunAttempt(batch, left, history, outcomes, errors, envs[k]), last);
    }
  }

  lemma {:induction false} DecideReports(batch: seq<Work>, envs: seq<Attempt>, k: nat, r: Attempted, last: Cause)
    requires r.history != [] && k < |envs| && Settling(Settled(|batch|, r))
    requires r.error.Some? && r.error.value.permanent ==> Unresolved(|batch|, Settled(|batch|, r)) == []
    ensures HonestReports(envs, Decide(batch, envs, k, r, last))
    decreases |envs| - k, 0
  {
    var settled := Settled(|batch|, r);
    var latest := if r.error.Some? then Git(r.error.value) else last;
    hide HonestReports, Settled, Finish, Unresolved, Settling, Retry, RunAttempt;
    if (r.error.Some? && r.error.value.permanent) || Unresolved(|batch|, settled) == [] {
      FinishReports(|batch|, envs, settled, r.errors, latest, r.history, k + 1, false);
    } else if k + 1 < |envs| && envs[k].wait.Draining? {
      FinishReports(|batch|, envs, settled, r.errors, latest, r.history, k + 1, true);
    } else if k + 1 < |envs| && envs[k].wait.Cancelled? {
      FinishReports(|batch|, envs, settled, r.errors, WaitCancelled, r.history, k + 1, false);
    } else {
      RetryReports(batch, envs, k + 1, r.left, r.history, settled, r.errors, latest);
    }
  }

  /** The reports of a whole write-back. */
  lemma WriteBackReports(batch: seq<Work>, envs: seq<Attempt>, left: Tree, history: seq<Tree>)
    requires history != []
    ensures HonestReports(envs, WriteBack(batch, envs, left, history))
  {
    RetryReports(batch, envs, 0, left, history, map[], map[], Unknown);
  }

  /** From attempt k on, the loop went on only after waits that ran their course. */
  predicate WaitedOut(envs: seq<Attempt>, k: nat, made: nat) {
    k <= made <= |envs| && forall m :: k <= m < made - 1 ==> envs[m].wait.Proceed?
  }

  lemma {:induction false} WaitsRanOut(batch: seq<Work>, envs: seq<Attempt>, k: nat, left: Tree, history: seq<Tree>,
      outcomes: Outcomes, errors: Errors, last: Cause)
    requires history != [] && k <= |envs|
    ensures WaitedOut(envs, k, Retry(batch, envs, k, left, history, outcomes, errors, last).attempts)
    decreases |envs| - k, 1
  {
    if k < |envs| && Unresolved(|batch|, outcomes) != [] {
      AttemptKeepsBooks(batch, left, history, outcomes, errors, envs[k]);
      hide RunAttempt, WaitedOut;
      DecisionWaits(batch, envs, k, RunAttempt(batch, left, history, outcomes, errors, envs[k]), last);
    }
  }

  lemma {:induction false} DecisionWaits(batch: seq<Work>, envs: seq<Attempt>, k: nat, r: Attempted, last: Cause)
    requires r.history != [] && k < |envs|
    ensures WaitedOut(envs, k, Decide(batch, envs, k, r, last).attempts)
    decreases |envs| - k, 0
  {
    hide Settled, Unresolved, Rest, Retry;
    if k + 1 == |envs| || envs[k].wait.Proceed? {
      WaitsRanOut(batch, envs, k + 1, r.left, r.history, Settled(|batch|, r), r.errors,
                  if r.error.Some? then Git(r.error.value) else last);
    }
  }

  /** Every failure that counts attempts counts the ones that were made. */
  predicate Accurate(result: Result) {
    forall i :: i in result.outcomes && result.outcomes[i].Exhausted? ==> result.outcomes[i].attempts == result.attempts
  }

  predicate WaitsAre(envs: seq<Attempt>, waits: seq<Wait>) {
    |envs| == |waits| && forall k :: 0 <= k < |envs| ==> envs[k].wait == waits[k]
  }

  /** Whatever the batch and whatever git answers, with these waits the counts are right. */
  ghost predicate AlwaysAccurate(waits: seq<Wait>) {
    forall batch, envs, left, history :: |history| > 0 && WaitsAre(envs, waits) ==>
      Accurate(WriteBack(batch, envs, left, history))
  }

  /** Attempt k is followed by a cancelled wait, every one before it ran its course, and there were attempts to come. */
  predicate CutShort(waits: seq<Wait>, k: nat) {
    k + 1 < |waits| && waits[k].Cancelled? && forall m :: 0 <= m < k ==> waits[m].Proceed?
  }

  /** The clone fails every time, for reasons that may pass. */
  function Unlucky(waits: seq<Wait>): seq<Attempt> {
    seq(|waits|, k requires 0 <= k < |waits| =>
      Attempt([], Some(GitError(false)), false, {}, map[], [], Accepted, waits[k]))
  }

  /** A wait cut short is still reported as the whole budget. */
  lemma {:induction false} CancelledWaitOverstates(work: Work, waits: seq<Wait>, k: nat, m: nat, left: Tree,
      history: seq<Tree>, last: Cause)
    requires CutShort(waits, k) && m <= k && history != []
    ensures var result := Retry([work], Unlucky(waits), m, left, history, map[], map[], last);
      && result.attempts == k + 1 < |waits|
      && 0 in result.outcomes && result.outcomes[0] == Exhausted(|waits|, WaitCancelled)
    decreases k - m
  {
    var envs, batch := Unlucky(waits), [work];
    UnresolvedOfOne(map[]);
    var r := RunAttempt(batch, left, history, map[], map[], envs[m]);
    assert r == Attempted(left, history + [], map[], map[], [], Some(GitError(false)));
    assert history + [] == history && Settled(1, r) == map[];
    hide RunAttempt, Settled, Unresolved, Decide;
    DecideUnfolds(batch, envs, m, r, last, Git(GitError(false)));
    if m < k {
      CancelledWaitOverstates(work, waits, k, m + 1, left, history, Git(GitError(false)));
    } else {
      assert Decide(batch, envs, m, r, last) == Finish(1, map[], map[], WaitCancelled, history, m + 1, |envs|, false);
    }
  }

  /**
   Counts are right for every batch and every answer of git exactly when no wait with attempts to
   come is cancelled before one is drained.
   */
  lemma AccurateExactlyUnlessCutShort(waits: seq<Wait>)
    ensures AlwaysAccurate(waits) <==> !exists k :: CutShort(waits, k)
  {
    if k :| CutShort(waits, k) {
      CancelledWaitOverstates(NoImages, waits, k, 0, map[], [map[]], Unknown);
      hide Retry, CutShort;
      assert WaitsAre(Unlucky(waits), waits);
      assert !Accurate(WriteBack([NoImages], Unlucky(waits), map[], [map[]]));
    } else {
      forall batch, envs, left, history | |history| > 0 && WaitsAre(envs, waits)
        ensures Accurate(WriteBack(batch, envs, left, history))
      {
        WriteBackReports(batch, envs, left, history);
        WaitsRanOut(batch, envs, 0, left, history, map[], map[], Unknown);
        CountsAreRight(envs, waits, WriteBack(batch, envs, left, history));
      }
    }
  }

  lemma CountsAreRight(envs: seq<Attempt>, waits: seq<Wait>, result: Result)
    requires WaitsAre(envs, waits) && HonestReports(envs, result) && !exists k :: CutShort(waits, k)
    requires result.attempts <= |envs| && forall m :: 0 <= m < result.attempts - 1 ==> envs[m].wait.Proceed?
    ensures Accurate(result)
  {
    if 0 < result.attempts < |envs| {
      assert !CutShort(waits, result.attempts - 1);
    }
  }
}
