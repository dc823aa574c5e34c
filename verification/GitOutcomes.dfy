/** Every outcome a write-back reports, traced to the requests and to what git, the tasks and the waits answered. */
module GitOutcomes {
  import opened Common
  import opened GitModel
  import opened GitTruth

  /** The push moved the branch, and was heard to. */
  predicate Pushes(env: Attempt) {
    env.push.Accepted? && env.during == []
  }

  /** What the client hears of a push that somebody else beat, that was refused, or whose answer was lost. */
  predicate PushAnswers(env: Attempt, e: GitError) {
    match env.push
    case Accepted => env.during != [] && e == GitError(false)
    case Refused(error) => e == error
    case AcceptedUnheard(error) => e == error
  }

  /** The attempt failed with this error. */
  predicate Hears(env: Attempt, e: GitError) {
    if env.clone.Some? then env.clone.value == e else PushAnswers(env, e)
  }

  predicate FirstClone(envs: seq<Attempt>, m: nat) {
    m < |envs| && envs[m].clone.None? && forall j :: 0 <= j < m ==> envs[j].clone.Some?
  }

  predicate LastClone(envs: seq<Attempt>, k: nat, m: nat)
    requires k <= |envs|
  {
    m < k && envs[m].clone.None? && forall j :: m < j < k ==> envs[j].clone.Some?
  }

  /** In none of the first k attempts was there anything that settles this request before the push. */
  predicate StaysOpen(batch: seq<Work>, envs: seq<Attempt>, k: nat, i: nat)
    requires i < |batch| && k <= |envs|
  {
    forall m :: 0 <= m < k && envs[m].clone.None? ==> batch[i].Write? && i !in envs[m].superseded
  }

  /** Attempt m may answer the request with success: it stands, and has content to write or nothing to do. */
  predicate DoneIn(work: Work, envs: seq<Attempt>, m: nat, i: nat)
    requires m < |envs|
  {
    && envs[m].clone.None? && i !in envs[m].superseded
    && match work
       case Misconfigured => false
       case Write(_, _) => i in envs[m].faults ==> !envs[m].faults[i].Untouched?
       case _ => FirstClone(envs, m)
  }

  predicate SupersededIn(work: Work, envs: seq<Attempt>, m: nat, i: nat)
    requires m < |envs|
  {
    envs[m].clone.None? && i in envs[m].superseded && (!work.Write? ==> FirstClone(envs, m))
  }

  predicate BadIn(work: Work, envs: seq<Attempt>, m: nat, i: nat)
    requires m < |envs|
  {
    work.Misconfigured? && FirstClone(envs, m) && i !in envs[m].superseded
  }

  /** Why a request has this outcome after k attempts. */
  ghost predicate SettledFor(batch: seq<Work>, envs: seq<Attempt>, k: nat, i: nat, outcome: Outcome)
    requires i < |batch| && k <= |envs|
  {
    match outcome
    case Done => exists m: nat :: m < k && DoneIn(batch[i], envs, m, i)
    case Superseded => exists m: nat :: m < k && SupersededIn(batch[i], envs, m, i)
    case BadConfig => exists m: nat :: m < k && BadIn(batch[i], envs, m, i)
    case Permanent(e) => e.permanent && StaysOpen(batch, envs, k, i) && k > 0 && Hears(envs[k - 1], e)
    case _ => false
  }

  /** The request's own commit failed so in the last attempt that could clone. */
  predicate FailedLast(envs: seq<Attempt>, k: nat, i: nat, m: nat, fault: Fault)
    requires k <= |envs|
  {
    LastClone(envs, k, m) && i in envs[m].faults && envs[m].faults[i] == fault
  }

  ghost predicate FailedSo(envs: seq<Attempt>, k: nat, i: nat, fault: Fault)
    requires k <= |envs|
  {
    exists m: nat :: FailedLast(envs, k, i, m, fault)
  }

  /** What is said of a request that stayed open: its own failure comes first, then the last one anybody heard. */
  ghost predicate CauseFits(envs: seq<Attempt>, made: nat, i: nat, cause: Cause)
    requires made <= |envs|
  {
    && (!cause.Commit? ==> !FailedSo(envs, made, i, Untouched))
    && match cause
       case Commit(fault) => FailedSo(envs, made, i, fault)
       case Git(e) => exists m: nat :: HeardLast(envs, made, m, e)
       case WaitCancelled => 0 < made < |envs| && envs[made - 1].wait.Cancelled?
       case Unknown => made == 0
  }

  /** Attempt m failed so, and every later one could clone. */
  predicate HeardLast(envs: seq<Attempt>, k: nat, m: nat, e: GitError)
    requires k <= |envs|
  {
    m < k && Hears(envs[m], e) && forall j :: m < j < k ==> envs[j].clone.None?
  }

  ghost predicate OutcomeFits(batch: seq<Work>, envs: seq<Attempt>, made: nat, i: nat, outcome: Outcome)
    requires i < |batch| && made <= |envs|
  {
    match outcome
    case Exhausted(attempts, cause) =>
      attempts == |envs| && StaysOpen(batch, envs, made, i) && CauseFits(envs, made, i, cause)
    case StoppedEarly(cause) =>
      && 0 < made < |envs| && envs[made - 1].wait.Draining? && !cause.WaitCancelled?
      && StaysOpen(batch, envs, made, i) && CauseFits(envs, made, i, cause)
    case _ => SettledFor(batch, envs, made, i, outcome)
  }

  /** What staging makes of one open request. */
  ghost predicate StagedAs(work: Work, i: nat, env: Attempt, outcomes: Outcomes, errors: Errors, committed: seq<nat>) {
    if i in env.superseded then i in outcomes && outcomes[i] == Superseded && i !in committed
    else
      match work
      case Misconfigured => i in outcomes && outcomes[i] == BadConfig && i !in committed
      case Write(_, _) =>
        || (&& i in outcomes && outcomes[i] == Done && i !in committed
            && (i in env.faults ==> !env.faults[i].Untouched?))
        || (&& i !in outcomes && i !in committed
            && i in env.faults && i in errors && errors[i] == env.faults[i])
        || (i !in outcomes && i in committed && i !in errors && i !in env.faults)
      case _ => i in outcomes && outcomes[i] == Done && i !in committed
  }

  lemma {:induction false} StagingLeavesRest(st: Staging, batch: seq<Work>, active: seq<nat>, env: Attempt, i: nat)
    requires Within(batch, active) && i !in active
    ensures var end := StageAll(st, batch, active, env);
      && (i in end.outcomes <==> i in st.outcomes) && (i in st.outcomes ==> end.outcomes[i] == st.outcomes[i])
      && (i in end.errors <==> i in st.errors) && (i in st.errors ==> end.errors[i] == st.errors[i])
      && (i in end.committed <==> i in st.committed)
    decreases |active|
  {
    if active != [] {
      var next := Stage(st, batch[active[0]], active[0], env);
      StagingLeavesRest(next, batch, active[1..], env, i);
    }
  }

  lemma StageSorts(st: Staging, work: Work, i: nat, env: Attempt)
    requires i !in st.outcomes && i !in st.committed
    ensures var end := Stage(st, work, i, env); StagedAs(work, i, env, end.outcomes, end.errors, end.committed)
  {
  }

  lemma {:induction false} StagingSorts(st: Staging, batch: seq<Work>, active: seq<nat>, env: Attempt, i: nat)
    requires Within(batch, active) && Ascending(active) && i in active && i !in st.outcomes && i !in st.committed
    ensures var end := StageAll(st, batch, active, env);
      StagedAs(batch[i], i, env, end.outcomes, end.errors, end.committed)
    decreases |active|
  {
    var next := Stage(st, batch[active[0]], active[0], env);
    if active[0] == i {
      StageSorts(st, batch[i], i, env);
      forall k | 1 <= k < |active| ensures active[k] != i {
        assert active[0] < active[k];
      }
      StagingLeavesRest(next, batch, active[1..], env, i);
    } else {
      hide StagedAs;
      assert i in active[1..];
      StagingSorts(next, batch, active[1..], env, i);
    }
  }

  /** What one attempt makes of one request. */
  ghost predicate AttemptedAs(batch: seq<Work>, i: nat, env: Attempt, outcomes: Outcomes, errors: Errors, r: Attempted)
    requires i < |batch|
  {
    if env.clone.Some? then
      r.outcomes == outcomes && r.errors == errors && r.committed == [] && r.error == env.clone
    else
      && (r.error.Some? ==> PushAnswers(env, r.error.value))
      && (r.error.None? ==> r.committed == [] || Pushes(env))
      && (i in outcomes ==> i in r.outcomes && r.outcomes[i] == outcomes[i] && i !in r.committed)
      && (i !in outcomes ==> StagedAs(batch[i], i, env, r.outcomes, r.errors, r.committed))
  }

  lemma PublishTells(cloned: seq<Tree>, st: Staging, env: Attempt)
    requires cloned != []
    ensures var r := Publish(cloned, st, env);
      && r.outcomes == st.outcomes && r.errors == st.errors && r.committed == st.committed
      && (r.error.Some? ==> PushAnswers(env, r.error.value))
      && (r.error.None? ==> r.committed == [] || Pushes(env))
  {
  }

  lemma AttemptSorts(batch: seq<Work>, left: Tree, history: seq<Tree>, outcomes: Outcomes, errors: Errors, env: Attempt,
      i: nat)
    requires history != [] && i < |batch|
    ensures AttemptedAs(batch, i, env, outcomes, errors, RunAttempt(batch, left, history, outcomes, errors, env))
  {
    if env.clone.None? {
      var cloned := history + env.before;
      var start := Cloned(ResetTo(Tip(cloned), left, env.keeps), outcomes, errors);
      var active := Unresolved(|batch|, outcomes);
      if i in outcomes {
        StagingLeavesRest(start, batch, active, env, i);
      } else {
        StagingSorts(start, batch, active, env, i);
      }
      PublishTells(cloned, StageAll(start, batch, active, env), env);
      hide StageAll, StagedAs, ResetTo, Publish, Unresolved;
    }
  }

  /** The state of the loop after k attempts: nobody settled without a reason, and whoever is open has one to name. */
  ghost predicate Explained(batch: seq<Work>, envs: seq<Attempt>, k: nat, outcomes: Outcomes, errors: Errors,
      last: Cause)
    requires k <= |envs|
  {
    && (forall i :: 0 <= i < |batch| ==> RequestFits(batch, envs, k, i, outcomes, errors, last))
    && LoopErrorFits(envs, k, last)
  }

  ghost predicate RequestFits(batch: seq<Work>, envs: seq<Attempt>, k: nat, i: nat, outcomes: Outcomes, errors: Errors,
      last: Cause)
    requires i < |batch| && k <= |envs|
  {
    if i in outcomes then SettledFor(batch, envs, k, i, outcomes[i])
    else
      && StaysOpen(batch, envs, k, i)
      && (i in errors ==> FailedSo(envs, k, i, errors[i]))
      && (i !in errors ==> !FailedSo(envs, k, i, Untouched))
      && (k > 0 && i !in errors ==> last.Git?)
  }

  ghost predicate LoopErrorFits(envs: seq<Attempt>, k: nat, last: Cause)
    requires k <= |envs|
  {
    match last
    case Git(e) => exists m: nat :: HeardLast(envs, k, m, e)
    case Unknown => forall m :: 0 <= m < k ==> envs[m].clone.None?
    case _ => false
  }

  lemma SettledLasts(batch: seq<Work>, envs: seq<Attempt>, k: nat, i: nat, outcome: Outcome)
    requires k < |envs| && i < |batch| && SettledFor(batch, envs, k, i, outcome) && !outcome.Permanent?
    ensures SettledFor(batch, envs, k + 1, i, outcome)
  {
    hide DoneIn, SupersededIn, BadIn;
    match outcome
    case Done => var m: nat :| m < k && DoneIn(batch[i], envs, m, i);
    case Superseded => var m: nat :| m < k && SupersededIn(batch[i], envs, m, i);
    case BadConfig => var m: nat :| m < k && BadIn(batch[i], envs, m, i);
    case _ =>
  }

  /** An attempt that cannot clone leaves every request's own failure the last one. */
  lemma NoCloneExplains(batch: seq<Work>, envs: seq<Attempt>, k: nat, i: nat, errors: Errors)
    requires k < |envs| && i < |batch| && envs[k].clone.Some? && StaysOpen(batch, envs, k, i)
    requires i in errors ==> FailedSo(envs, k, i, errors[i])
    requires i !in errors ==> !FailedSo(envs, k, i, Untouched)
    ensures StaysOpen(batch, envs, k + 1, i)
    ensures i in errors ==> FailedSo(envs, k + 1, i, errors[i])
    ensures i !in errors ==> !FailedSo(envs, k + 1, i, Untouched)
  {
    if i in errors {
      var m: nat :| FailedLast(envs, k, i, m, errors[i]);
      assert FailedLast(envs, k + 1, i, m, errors[i]);
    } else if FailedSo(envs, k + 1, i, Untouched) {
      var m: nat :| FailedLast(envs, k + 1, i, m, Untouched);
      assert FailedLast(envs, k, i, m, Untouched);
    }
  }

  /** What staging settles in attempt k. */
  lemma StagedIsSettled(batch: seq<Work>, envs: seq<Attempt>, k: nat, i: nat, outcomes: Outcomes, errors: Errors,
      committed: seq<nat>)
    requires k < |envs| && i < |batch| && envs[k].clone.None? && StaysOpen(batch, envs, k, i)
    requires StagedAs(batch[i], i, envs[k], outcomes, errors, committed)
    ensures i in outcomes ==> SettledFor(batch, envs, k + 1, i, outcomes[i]) && !outcomes[i].Permanent?
    ensures i in committed ==> SettledFor(batch, envs, k + 1, i, Done)
    ensures i !in outcomes ==>
      && StaysOpen(batch, envs, k + 1, i)
      && (i !in committed ==> i in errors)
      && (i in errors && i !in committed ==> FailedSo(envs, k + 1, i, errors[i]))
      && (i in committed ==> i !in errors)
      && (i !in errors ==> !FailedSo(envs, k + 1, i, Untouched))
  {
    if i in outcomes {
      match outcomes[i]
      case Done => assert DoneIn(batch[i], envs, k, i);
      case Superseded => assert SupersededIn(batch[i], envs, k, i);
      case BadConfig => assert BadIn(batch[i], envs, k, i);
      case _ =>
    } else {
      if i in committed {
        assert DoneIn(batch[i], envs, k, i);
      } else {
        assert FailedLast(envs, k + 1, i, k, errors[i]);
      }
    }
  }

  /** The attempt after the k-th adds its own reasons and takes none away. */
  lemma AttemptExplains(batch: seq<Work>, envs: seq<Attempt>, k: nat, i: nat, outcomes: Outcomes, errors: Errors,
      last: Cause, r: Attempted)
    requires k < |envs| && i < |batch| && RequestFits(batch, envs, k, i, outcomes, errors, last)
    requires i in outcomes ==> !outcomes[i].Permanent?
    requires AttemptedAs(batch, i, envs[k], outcomes, errors, r)
    ensures RequestFits(batch, envs, k + 1, i, Settled(|batch|, r), r.errors,
                        if r.error.Some? then Git(r.error.value) else last)
    ensures !(r.error.Some? && r.error.value.permanent) && i in Settled(|batch|, r) ==>
      !Settled(|batch|, r)[i].Permanent?
  {
    if i in outcomes {
      SettledLasts(batch, envs, k, i, outcomes[i]);
    } else if envs[k].clone.Some? {
      NoCloneExplains(batch, envs, k, i, errors);
    } else {
      StagedIsSettled(batch, envs, k, i, r.outcomes, r.errors, r.committed);
    }
    hide DoneIn, SupersededIn, BadIn, FailedLast, StagedAs, StaysOpen, PushAnswers;
    assert r.error.Some? ==> Hears(envs[k], r.error.value);
  }

  function Latest(r: Attempted, last: Cause): Cause {
    if r.error.Some? then Git(r.error.value) else last
  }

  lemma LoopErrorMoves(batch: seq<Work>, envs: seq<Attempt>, k: nat, i: nat, outcomes: Outcomes, errors: Errors,
      last: Cause, r: Attempted)
    requires k < |envs| && i < |batch| && LoopErrorFits(envs, k, last)
    requires AttemptedAs(batch, i, envs[k], outcomes, errors, r)
    ensures LoopErrorFits(envs, k + 1, Latest(r, last))
  {
    if r.error.Some? {
      assert HeardLast(envs, k + 1, k, r.error.value);
    } else if last.Git? {
      var m: nat :| HeardLast(envs, k, m, last.error);
      assert HeardLast(envs, k + 1, m, last.error);
    }
  }

  ghost predicate NonePermanent(outcomes: Outcomes) {
    forall i :: i in outcomes ==> !outcomes[i].Permanent?
  }

  lemma AttemptKeepsExplained(batch: seq<Work>, envs: seq<Attempt>, k: nat, left: Tree, history: seq<Tree>,
      outcomes: Outcomes, errors: Errors, last: Cause)
    requires history != [] && k < |envs| && batch != [] && Explained(batch, envs, k, outcomes, errors, last)
    requires NonePermanent(outcomes) && forall i :: i in outcomes ==> i < |batch|
    ensures var r := RunAttempt(batch, left, history, outcomes, errors, envs[k]);
      && Explained(batch, envs, k + 1, Settled(|batch|, r), r.errors, Latest(r, last))
      && (!(r.error.Some? && r.error.value.permanent) ==> NonePermanent(Settled(|batch|, r)))
  {
    var r := RunAttempt(batch, left, history, outcomes, errors, envs[k]);
    SettlingKeepsOutcomes(batch, left, history, outcomes, errors, envs[k]);
    hide RunAttempt, Settled, RequestFits, LoopErrorFits, AttemptedAs;
    AttemptSorts(batch, left, history, outcomes, errors, envs[k], 0);
    LoopErrorMoves(batch, envs, k, 0, outcomes, errors, last, r);
    forall i | 0 <= i < |batch|
      ensures RequestFits(batch, envs, k + 1, i, Settled(|batch|, r), r.errors, Latest(r, last))
      ensures !(r.error.Some? && r.error.value.permanent) && i in Settled(|batch|, r) ==>
        !Settled(|batch|, r)[i].Permanent?
    {
      AttemptSorts(batch, left, history, outcomes, errors, envs[k], i);
      AttemptExplains(batch, envs, k, i, outcomes, errors, last, r);
    }
  }

  /** Every request of the batch has an outcome, and every outcome its cause. */
  ghost predicate AllFit(batch: seq<Work>, envs: seq<Attempt>, result: Result) {
    && result.attempts <= |envs|
    && forall i :: 0 <= i < |batch| ==>
         i in result.outcomes && OutcomeFits(batch, envs, result.attempts, i, result.outcomes[i])
  }

  lemma FinishFits(batch: seq<Work>, envs: seq<Attempt>, made: nat, outcomes: Outcomes, errors: Errors, latest: Cause,
      last: Cause, history: seq<Tree>, drained: bool)
    requires made <= |envs| && Explained(batch, envs, made, outcomes, errors, latest)
    requires last == latest || (last.WaitCancelled? && !drained && 0 < made < |envs| && envs[made - 1].wait.Cancelled?)
    requires drained ==> 0 < made < |envs| && envs[made - 1].wait.Draining?
    ensures AllFit(batch, envs, Finish(|batch|, outcomes, errors, last, history, made, |envs|, drained))
  {
    hide StaysOpen, FailedSo, HeardLast, DoneIn, SupersededIn, BadIn, Hears;
    forall i | 0 <= i < |batch|
      ensures var rest := Rest(|batch|, outcomes, errors, last, |envs|, drained);
        i in rest && OutcomeFits(batch, envs, made, i, rest[i])
    {
      assert RequestFits(batch, envs, made, i, outcomes, errors, latest);
    }
  }

  lemma {:induction false} RetryExplains(batch: seq<Work>, envs: seq<Attempt>, k: nat, left: Tree, history: seq<Tree>,
      outcomes: Outcomes, errors: Errors, last: Cause)
    requires history != [] && k <= |envs| && batch != [] && Explained(batch, envs, k, outcomes, errors, last)
    requires NonePermanent(outcomes) && forall i :: i in outcomes ==> i < |batch|
    ensures AllFit(batch, envs, Retry(batch, envs, k, left, history, outcomes, errors, last))
    decreases |envs| - k, 1
  {
    hide Explained, NonePermanent, AllFit, Finish, RunAttempt, Settled;
    FinishFits(batch, envs, k, outcomes, errors, last, last, history, false);
    if k < |envs| && Unresolved(|batch|, outcomes) != [] {
      var r := RunAttempt(batch, left, history, outcomes, errors, envs[k]);
      AttemptKeepsExplained(batch, envs, k, left, history, outcomes, errors, last);
      AttemptKeepsBooks(batch, left, history, outcomes, errors, envs[k]);
      SettlingKeepsOutcomes(batch, left, history, outcomes, errors, envs[k]);
      hide Unresolved;
      DecideExplains(batch, envs, k, r, last);
    }
  }

  lemma {:induction false} DecideExplains(batch: seq<Work>, envs: seq<Attempt>, k: nat, r: Attempted, last: Cause)
    requires r.history != [] && k < |envs| && batch != []
    requires Explained(batch, envs, k + 1, Settled(|batch|, r), r.errors, Latest(r, last))
    requires !(r.error.Some? && r.error.value.permanent) ==> NonePermanent(Settled(|batch|, r))
    requires forall i :: i in Settled(|batch|, r) ==> i < |batch|
    ensures AllFit(batch, envs, Decide(batch, envs, k, r, last))
    decreases |envs| - k, 0
  {
    hide Explained, NonePermanent, AllFit, Finish, RunAttempt, Settled, Retry, Unresolved;
    var settled, latest := Settled(|batch|, r), Latest(r, last);
    FinishFits(batch, envs, k + 1, settled, r.errors, latest, latest, r.history, false);
    if (r.error.Some? && r.error.value.permanent) || Unresolved(|batch|, settled) == [] {
    } else if k + 1 < |envs| && envs[k].wait.Draining? {
      FinishFits(batch, envs, k + 1, settled, r.errors, latest, latest, r.history, true);
    } else if k + 1 < |envs| && envs[k].wait.Cancelled? {
      FinishFits(batch, envs, k + 1, settled, r.errors, latest, WaitCancelled, r.history, false);
    } else {
      RetryExplains(batch, envs, k + 1, r.left, r.history, settled, r.errors, latest);
    }
  }

  /** Every request ends with an outcome that its own annotations and the answers of this call account for. */
  lemma EveryOutcomeHasItsCause(batch: seq<Work>, envs: seq<Attempt>, left: Tree, history: seq<Tree>)
    requires history != []
    ensures AllFit(batch, envs, WriteBack(batch, envs, left, history))
  {
    if batch != [] {
      RetryExplains(batch, envs, 0, left, history, map[], map[], Unknown);
    } else {
      WriteBackIsComplete(batch, envs, left, history);
    }
  }

  /**
   A request with nothing to write is settled by the first attempt that can clone, and by nothing
   else: superseded if its stop predicate says so, else its own configuration error if it has one,
   else done. A request with content is superseded in any attempt that can clone unless an
   earlier one wrote it; and nobody gets another's configuration error.
   */
  lemma SettledWithoutAPush(batch: seq<Work>, envs: seq<Attempt>, left: Tree, history: seq<Tree>, i: nat, m: nat)
    requires history != [] && i < |batch| && m < WriteBack(batch, envs, left, history).attempts
    ensures i in WriteBack(batch, envs, left, history).outcomes
    ensures var outcome := WriteBack(batch, envs, left, history).outcomes[i];
      && (!batch[i].Write? && FirstClone(envs, m) ==>
            outcome ==
              if i in envs[m].superseded then Superseded else if batch[i].Misconfigured? then BadConfig else Done)
      && (batch[i].Write? && envs[m].clone.None? && i in envs[m].superseded ==> outcome.Superseded? || outcome.Done?)
      && (outcome.BadConfig? ==> batch[i].Misconfigured?)
      && (outcome.Done? ==> !batch[i].Misconfigured?)
  {
    EveryOutcomeHasItsCause(batch, envs, left, history);
    var result := WriteBack(batch, envs, left, history);
    assert OutcomeFits(batch, envs, result.attempts, i, result.outcomes[i]);
    hide WriteBack, AllFit, CauseFits, Hears;
  }

  /** While no attempt could clone, nobody is done, superseded or told of a configuration error. */
  lemma NoCloneSettlesNothing(batch: seq<Work>, envs: seq<Attempt>, left: Tree, history: seq<Tree>, i: nat)
    requires history != [] && i < |batch|
    requires forall m :: 0 <= m < WriteBack(batch, envs, left, history).attempts ==> envs[m].clone.Some?
    ensures i in WriteBack(batch, envs, left, history).outcomes
    ensures var outcome := WriteBack(batch, envs, left, history).outcomes[i];
      outcome.Permanent? || outcome.Exhausted? || outcome.StoppedEarly?
  {
    EveryOutcomeHasItsCause(batch, envs, left, history);
    var result := WriteBack(batch, envs, left, history);
    assert OutcomeFits(batch, envs, result.attempts, i, result.outcomes[i]);
    hide WriteBack, AllFit, CauseFits, Hears;
  }
}
