/** The single-application path, and a batch of one against it. */
module GitAlone {
  import opened Common
  import opened Overrides
  import opened GitModel
  import opened GitTruth

  /** What one clone and update came to: whether the commit failed, and what it left behind. */
  datatype Tried = Tried(error: Option<GitError>, failed: bool, left: Tree, history: seq<Tree>)

  function TryAlone(file: Path, params: seq<Param>, env: Attempt, left: Tree, history: seq<Tree>): (r: Tried)
    requires history != []
    ensures r.history != []
    ensures r.failed ==> r.error.None?
  {
    var cloned := history + env.before;
    if env.clone.Some? then Tried(env.clone, false, left, cloned)
    else
      UpdateTried(file, params, env, ResetTo(Tip(cloned), left, env.keeps), cloned)
  }

  /** Commit one application on a fresh clone, and push if something was committed. */
  function UpdateTried(file: Path, params: seq<Param>, env: Attempt, l: Local, cloned: seq<Tree>): (r: Tried)
    requires cloned != []
    ensures r.history != []
    ensures r.failed ==> r.error.None?
  {
    if 0 in env.faults && (env.faults[0].Untouched? || Changes(l.worktree, file, params)) then
      Tried(None, true, Untracked(FailedCommit(l, file, params, env.faults[0])), cloned)
    else if !Changes(l.worktree, file, params) then Tried(None, false, Untracked(l), cloned)
    else
      var after := CommitOn(l, file, params);
      Tried(PushError(env.during, env.push), false, Untracked(after),
        AfterPush(cloned, env.during, after.head, env.push))
  }

  datatype Alone = Alone(written: bool, stopped: bool, history: seq<Tree>, attempts: nat)

  /** The retry loop from attempt k on. It knows no drain, and asks its stop predicate before cloning. */
  function RetryAlone(file: Path, params: seq<Param>, envs: seq<Attempt>, budget: nat, k: nat, left: Tree,
      history: seq<Tree>): (alone: Alone)
    requires history != [] && k <= budget <= |envs|
    ensures alone.written ==> !alone.stopped
    decreases budget - k, 1
  {
    if k == budget then Alone(false, false, history, k)
    else if 0 in envs[k].superseded then Alone(false, true, history, k)
    else
      DecideAlone(file, params, envs, budget, k, TryAlone(file, params, envs[k], left, history))
  }

  function DecideAlone(file: Path, params: seq<Param>, envs: seq<Attempt>, budget: nat, k: nat,
        r: Tried): (alone: Alone)
    requires r.history != [] && k < budget <= |envs|
    ensures alone.written ==> !alone.stopped
    decreases budget - k, 0
  {
    if r.error.None? && !r.failed then Alone(true, false, r.history, k + 1)
    else if r.error.Some? && r.error.value.permanent then Alone(false, false, r.history, k + 1)
    else if k + 1 < budget && envs[k].wait.Cancelled? then Alone(false, false, r.history, k + 1)
    else RetryAlone(file, params, envs, budget, k + 1, r.left, r.history)
  }

  /** What the attempt on a single request settles. */
  function SettledAlone(r: Tried): Outcomes {
    if r.error.Some? then if r.error.value.permanent then map[0 := Permanent(r.error.value)] else map[]
    else if r.failed then map[] else map[0 := Done]
  }

  /** Staging a single request. */
  lemma StagingOfOne(work: Work, env: Attempt, l: Local, errors: Errors)
    ensures Unresolved(1, map[]) == [0]
    ensures StageAll(Cloned(l, map[], errors), [work], [0], env) == Stage(Cloned(l, map[], errors), work, 0, env)
  {
    var st := Stage(Cloned(l, map[], errors), work, 0, env);
    assert [0][1..] == [];
    assert StageAll(st, [work], [], env) == st;
  }

  lemma PublishingOne(file: Path, params: seq<Param>, env: Attempt, l: Local, cloned: seq<Tree>, errors: Errors)
    requires cloned != [] && 0 !in env.superseded
    ensures var r, tried := Publish(cloned, Stage(Cloned(l, map[], errors), Write(file, params), 0, env), env),
                            UpdateTried(file, params, env, l, cloned);
      && r.history == tried.history && r.error == tried.error && r.left == tried.left
      && Settled(1, r) == SettledAlone(tried)
  {
    hide Untracked;
  }

  /** What one attempt makes of a batch holding a single request. */
  lemma AttemptOfOne(file: Path, params: seq<Param>, env: Attempt, left: Tree, history: seq<Tree>, errors: Errors)
    requires history != [] && 0 !in env.superseded
    ensures var r, tried := RunAttempt([Write(file, params)], left, history, map[], errors, env),
                            TryAlone(file, params, env, left, history);
      && r.history == tried.history && r.error == tried.error && r.left == tried.left
      && Settled(1, r) == SettledAlone(tried)
  {
    var cloned := history + env.before;
    if env.clone.None? {
      var l := ResetTo(Tip(cloned), left, env.keeps);
      StagingOfOne(Write(file, params), env, l, errors);
      PublishingOne(file, params, env, l, cloned, errors);
      hide StageAll, Stage, Publish, Settled, SettledAlone, UpdateTried, Unresolved;
      assert RunAttempt([Write(file, params)], left, history, map[], errors, env)
          == Publish(cloned, Stage(Cloned(l, map[], errors), Write(file, params), 0, env), env);
    }
  }

  /** The attempts a drain leaves to the batch: up to the first one whose wait is drained. */
  function Undrained(envs: seq<Attempt>, k: nat): (budget: nat)
    requires k <= |envs|
    ensures k <= budget <= |envs|
    ensures k < |envs| ==> k < budget
    decreases |envs| - k
  {
    if k == |envs| then k
    else if envs[k].wait.Draining? then k + 1
    else Undrained(envs, k + 1)
  }

  /** A stop predicate that answers true keeps doing so. */
  predicate StopsForGood(envs: seq<Attempt>, k: nat) {
    forall a, b :: k <= a <= b < |envs| && 0 in envs[a].superseded ==> 0 in envs[b].superseded
  }

  /** The same success, and unless the single path stopped, the same branch after as many attempts. */
  predicate Agree(together: Result, alone: Alone) {
    && 0 in together.outcomes && (together.outcomes[0] == Done <==> alone.written)
    && alone.history <= together.history
    && (!alone.stopped ==> together.history == alone.history && together.attempts == alone.attempts)
  }

  /** Not written, on a branch that only grew. */
  predicate Unwritten(together: Result, history: seq<Tree>) {
    0 in together.outcomes && together.outcomes[0] != Done && history <= together.history
  }

  /** Once its stop predicate answers true the request is never done, and the batch pushes nothing for it. */
  lemma {:induction false} StoppedTogether(file: Path, params: seq<Param>, envs: seq<Attempt>, k: nat, left: Tree,
      history: seq<Tree>, errors: Errors, last: Cause)
    requires history != [] && k <= |envs| && forall m :: k <= m < |envs| ==> 0 in envs[m].superseded
    ensures Unwritten(Retry([Write(file, params)], envs, k, left, history, map[], errors, last), history)
    decreases |envs| - k, 1
  {
    UnresolvedOfOne(map[]);
    if k == |envs| {
      FinishOfOne(map[], errors, last, history, k, |envs|, false);
    } else {
      SupersededAttempt(file, params, envs[k], left, history, errors);
      var r := RunAttempt([Write(file, params)], left, history, map[], errors, envs[k]);
      hide RunAttempt, Settled, Decide, Unresolved;
      StoppedDecision(file, params, envs, k, r, last);
    }
  }

  lemma {:induction false} StoppedDecision(file: Path, params: seq<Param>, envs: seq<Attempt>, k: nat, r: Attempted,
        last: Cause)
    requires r.history != [] && k < |envs| && forall m :: k <= m < |envs| ==> 0 in envs[m].superseded
    requires Settled(1, r) == map[] || (Settled(1, r).Keys == {0} && Settled(1, r)[0] != Done)
    requires r.error.Some? && r.error.value.permanent ==> 0 in Settled(1, r)
    ensures Unwritten(Decide([Write(file, params)], envs, k, r, last), r.history)
    decreases |envs| - k, 0
  {
    var latest := if r.error.Some? then Git(r.error.value) else last;
    DecideUnfolds([Write(file, params)], envs, k, r, last, latest);
    hide Settled, Decide, Unresolved, Finish, Retry;
    if 0 in Settled(1, r) {
      FinishOfOne(Settled(1, r), r.errors, latest, r.history, k + 1, |envs|, false);
    } else if k + 1 < |envs| && envs[k].wait.Draining? {
      FinishOfOne(map[], r.errors, latest, r.history, k + 1, |envs|, true);
    } else if k + 1 < |envs| && envs[k].wait.Cancelled? {
      FinishOfOne(map[], r.errors, WaitCancelled, r.history, k + 1, |envs|, false);
    } else {
      StoppedTogether(file, params, envs, k + 1, r.left, r.history, r.errors, latest);
    }
  }

  lemma SupersededAttempt(file: Path, params: seq<Param>, env: Attempt, left: Tree, history: seq<Tree>, errors: Errors)
    requires history != [] && 0 in env.superseded
    ensures var r := RunAttempt([Write(file, params)], left, history, map[], errors, env);
      && r.history == history + env.before
      && (Settled(1, r) == map[] || (Settled(1, r).Keys == {0} && Settled(1, r)[0] != Done))
      && (r.error.Some? && r.error.value.permanent ==> 0 in Settled(1, r))
  {
    if env.clone.None? {
      StagingOfOne(Write(file, params), env, ResetTo(Tip(history + env.before), left, env.keeps), errors);
    }
  }

  /**
   A batch of one behaves as the single-application path does, a drain counting as the end of
   its budget. The two ask the stop predicate at different instants, before the clone and
   after it; either way a stopped request is not written.
   */
  lemma {:induction false} RetryOfOne(file: Path, params: seq<Param>, envs: seq<Attempt>, k: nat, left: Tree,
      history: seq<Tree>, errors: Errors, last: Cause)
    requires history != [] && k <= |envs| && StopsForGood(envs, k)
    ensures Agree(Retry([Write(file, params)], envs, k, left, history, map[], errors, last),
                  RetryAlone(file, params, envs, Undrained(envs, k), k, left, history))
    decreases |envs| - k, 1
  {
    UnresolvedOfOne(map[]);
    if k == |envs| {
      FinishOfOne(map[], errors, last, history, k, |envs|, false);
    } else if 0 in envs[k].superseded {
      StoppedTogether(file, params, envs, k, left, history, errors, last);
    } else {
      AttemptOfOne(file, params, envs[k], left, history, errors);
      hide RunAttempt, Settled, TryAlone, SettledAlone, Decide, DecideAlone, Unresolved, Agree;
      var r := RunAttempt([Write(file, params)], left, history, map[], errors, envs[k]);
      DecisionOfOne(file, params, envs, k, r, last, TryAlone(file, params, envs[k], left, history));
    }
  }

  /** The batch's decision about its single request, once what the attempt settled is known. */
  lemma DecideUnfolds(batch: seq<Work>, envs: seq<Attempt>, k: nat, r: Attempted, last: Cause, latest: Cause)
    requires |batch| == 1 && r.history != [] && k < |envs|
    requires r.error.Some? && r.error.value.permanent ==> 0 in Settled(1, r)
    requires latest == if r.error.Some? then Git(r.error.value) else last
    ensures Decide(batch, envs, k, r, last) ==
      if 0 in Settled(1, r) then Finish(1, Settled(1, r), r.errors, latest, r.history, k + 1, |envs|, false)
      else if k + 1 < |envs| && envs[k].wait.Draining? then
        Finish(1, Settled(1, r), r.errors, latest, r.history, k + 1, |envs|, true)
      else if k + 1 < |envs| && envs[k].wait.Cancelled? then
        Finish(1, Settled(1, r), r.errors, WaitCancelled, r.history, k + 1, |envs|, false)
      else Retry(batch, envs, k + 1, r.left, r.history, Settled(1, r), r.errors, latest)
  {
    UnresolvedOfOne(Settled(1, r));
    hide Settled, Finish, Retry, Unresolved;
  }

  lemma {:induction false} DecisionOfOne(file: Path, params: seq<Param>, envs: seq<Attempt>, k: nat, r: Attempted,
      last: Cause, tried: Tried)
    requires r.history != [] && k < |envs| && StopsForGood(envs, k) && tried.history == r.history
    requires r.error == tried.error && r.left == tried.left && Settled(1, r) == SettledAlone(tried)
    ensures Agree(Decide([Write(file, params)], envs, k, r, last),
      DecideAlone(file, params, envs, Undrained(envs, k), k, tried))
    decreases |envs| - k, 0
  {
    var latest := if r.error.Some? then Git(r.error.value) else last;
    var settled := SettledAlone(tried);
    hide Settled, Finish, Retry, RetryAlone, Decide;
    DecideUnfolds([Write(file, params)], envs, k, r, last, latest);
    if 0 in settled {
      FinishOfOne(settled, r.errors, latest, r.history, k + 1, |envs|, false);
    } else if k + 1 < |envs| && envs[k].wait.Draining? {
      FinishOfOne(settled, r.errors, latest, r.history, k + 1, |envs|, true);
      SpentAlone(file, params, envs, k + 1, r.left, r.history);
    } else if k + 1 < |envs| && envs[k].wait.Cancelled? {
      FinishOfOne(settled, r.errors, WaitCancelled, r.history, k + 1, |envs|, false);
    } else {
      RetryOfOne(file, params, envs, k + 1, r.left, r.history, r.errors, latest);
    }
  }

  lemma SpentAlone(file: Path, params: seq<Param>, envs: seq<Attempt>, k: nat, left: Tree, history: seq<Tree>)
    requires history != [] && k <= |envs|
    ensures RetryAlone(file, params, envs, k, k, left, history) == Alone(false, false, history, k)
  {
  }

  lemma UnresolvedOfOne(outcomes: Outcomes)
    ensures Unresolved(1, outcomes) == if 0 in outcomes then [] else [0]
  {
    assert Unresolved(0, outcomes) == [];
  }

  lemma FinishOfOne(outcomes: Outcomes, errors: Errors, last: Cause, history: seq<Tree>, made: nat, budget: nat,
        drained: bool)
    ensures var result := Finish(1, outcomes, errors, last, history, made, budget, drained);
      && result.history == history && result.attempts == made
      && 0 in result.outcomes && (result.outcomes[0] == Done <==> 0 in outcomes && outcomes[0] == Done)
  {
  }

  /** A whole write-back of one request, in a clone where an earlier one may have left files. */
  lemma BatchOfOneIsAlone(file: Path, params: seq<Param>, envs: seq<Attempt>, left: Tree, history: seq<Tree>)
    requires history != [] && StopsForGood(envs, 0)
    ensures Agree(WriteBack([Write(file, params)], envs, left, history),
                  RetryAlone(file, params, envs, Undrained(envs, 0), 0, left, history))
  {
    RetryOfOne(file, params, envs, 0, left, history, map[], Unknown);
  }
}
