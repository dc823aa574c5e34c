/** The write-back as it runs: a clone edited in place, a shared branch, and the maps the retry loop fills. */
module GitRepo {
  import opened Common
  import opened Overrides
  import opened GitModel
  import opened GitLeftovers
  import opened GitTruth
  import opened GitAlone
  import GitOutcomes

  /** The remote branch, which other writers move as well. */
  class Remote {
    var history: seq<Tree>

    constructor (first: Tree)
      ensures history == [first]
    {
      history := [first];
    }

    method Receive(others: seq<Tree>)
      modifies this
      ensures history == old(history) + others
    {
      history := history + others;
    }
  }

  datatype CommitResult = Committed | Unchanged | Failed(fault: Fault)

  class GitRepo {
    const remote: Remote
    var worktree: Tree
    var index: Tree
    var head: Tree

    constructor (remote: Remote)
      ensures this.remote == remote
    {
      this.remote := remote;
      worktree, index, head := map[], map[], map[];
    }

    ghost function Copy(): Local
      reads this
    {
      Local(worktree, index, head)
    }

    /** Leaves files, index and head at the branch's tip; files never staged stay or go as the reset treats them. */
    method Clone(before: seq<Tree>, failure: Option<GitError>, keeps: bool) returns (err: Option<GitError>)
      requires remote.history != []
      modifies this, remote
      ensures remote.history == old(remote.history) + before
      ensures err == failure
      ensures Copy() == if err.None? then ResetTo(Tip(remote.history), old(Untracked(Copy())), keeps) else old(Copy())
      ensures err.None? ==>
        && index == head == Tip(remote.history)
        && forall file :: (file in worktree <==>
                             file in head || (keeps && file in old(worktree) && file !in old(index)))
                          && (file in head ==> worktree[file] == head[file])
                          && (file in worktree && file !in head ==> worktree[file] == old(worktree)[file])
    {
      remote.Receive(before);
      if failure.Some? {
        return failure;
      }
      var tip := Tip(remote.history);
      if keeps {
        var untracked := map file | file in worktree && file !in index :: worktree[file];
        worktree := untracked + tip;
      } else {
        worktree := tip;
      }
      index, head := tip, tip;
      return None;
    }

    method MergeOverrideFileContent(file: Path, params: seq<Param>) returns (content: seq<Param>)
      ensures content == Content(worktree, file, params)
      ensures content == if file in worktree then Merge(worktree[file], params) else params
    {
      if file !in worktree {
        return params;
      }
      var existing := new OverrideFile(worktree[file]);
      existing.MergeParameters(params);
      return existing.parameters;
    }

    method CommitAppLocal(file: Path, params: seq<Param>, fault: Option<Fault>) returns (r: CommitResult)
      modifies this
      ensures var tree := old(worktree);
        if fault.Some? && (fault.value.Untouched? || Changes(tree, file, params)) then
          r == Failed(fault.value) && Copy() == FailedCommit(old(Copy()), file, params, fault.value)
        else if !Changes(tree, file, params) then
          r == Unchanged && Copy() == old(Copy())
        else
          r == CommitResult.Committed && Copy() == CommitOn(old(Copy()), file, params)
      ensures var content := if file in old(worktree) then Merge(old(worktree)[file], params) else params;
        var changed := file in old(worktree) ==> content != old(worktree)[file];
        && r == (if fault == Some(Untouched) then Failed(Untouched)
                 else if !changed then Unchanged
                 else if fault.Some? then Failed(fault.value)
                 else CommitResult.Committed)
        && worktree == (if changed && fault != Some(Untouched) then old(worktree)[file := content] else old(worktree))
        && index == (if changed && (fault == None || fault == Some(Staged)) then old(index)[file := content]
                     else old(index))
        && head == (if r == CommitResult.Committed then index else old(head))
    {
      if fault.Some? && fault.value.Untouched? {
        return Failed(Untouched);
      }
      var content := MergeOverrideFileContent(file, params);
      if file in worktree && content == worktree[file] {
        return Unchanged;
      }
      worktree := worktree[file := content];
      if fault.Some? && fault.value.Written? {
        return Failed(Written);
      }
      index := index[file := content];
      if fault.Some? && fault.value.Staged? {
        return Failed(Staged);
      }
      head := index;
      assert fault.None? && Changes(old(worktree), file, params);
      return CommitResult.Committed;
    }

    method Push(during: seq<Tree>, answer: PushAnswer) returns (err: Option<GitError>)
      modifies remote
      ensures remote.history == AfterPush(old(remote.history), during, head, answer)
      ensures err == PushError(during, answer)
      ensures remote.history ==
        old(remote.history) + if during == [] && !answer.Refused? then [head] else during
      ensures err.None? <==> answer.Accepted? && during == []
      ensures !answer.Accepted? ==> err == Some(answer.error)
      ensures answer.Accepted? && during != [] ==> err == Some(GitError(false))
    {
      remote.Receive(during);
      match answer {
        case Accepted =>
          if during != [] {
            return Some(GitError(false));
          }
          remote.Receive([head]);
          return None;
        case Refused(error) =>
          return Some(error);
        case AcceptedUnheard(error) =>
          if during == [] {
            remote.Receive([head]);
          }
          return Some(error);
      }
    }

    /** Commits one application and pushes only if there was something to commit. */
    method UpdateApp(file: Path, params: seq<Param>, env: Attempt) returns (err: Option<GitError>, failed: bool)
      requires remote.history != []
      modifies this, remote
      ensures Tried(err, failed, Untracked(Copy()), remote.history)
           == UpdateTried(file, params, env, old(Copy()), old(remote.history))
    {
      var r := CommitAppLocal(file, params, if 0 in env.faults then Some(env.faults[0]) else None);
      if r.Failed? {
        return None, true;
      }
      if r.Unchanged? {
        return None, false;
      }
      err := Push(env.during, env.push);
      failed := false;
    }
  }

  /** The single-application path: its answer is whether the update was written. */
  method RunGitUpdateWithRetry(repo: GitRepo, file: Path, params: seq<Param>, envs: seq<Attempt>)
      returns (written: bool, stopped: bool, attempts: nat)
    requires repo.remote.history != []
    modifies repo, repo.remote
    ensures Alone(written, stopped, repo.remote.history, attempts)
         == RetryAlone(file, params, envs, |envs|, 0, old(Untracked(repo.Copy())), old(repo.remote.history))
  {
    ghost var target := RetryAlone(file, params, envs, |envs|, 0, Untracked(repo.Copy()), repo.remote.history);
    attempts := 0;
    while attempts < |envs|
      invariant attempts <= |envs| && repo.remote.history != []
      invariant RetryAlone(file, params, envs, |envs|, attempts, Untracked(repo.Copy()), repo.remote.history) == target
    {
      var env := envs[attempts];
      if 0 in env.superseded {
        return false, true, attempts;
      }
      ghost var before, left := repo.remote.history, Untracked(repo.Copy());
      var err := repo.Clone(env.before, env.clone, env.keeps);
      var failed := false;
      if err.None? {
        err, failed := repo.UpdateApp(file, params, env);
      }
      assert TryAlone(file, params, env, left, before) ==
        Tried(err, failed, Untracked(repo.Copy()), repo.remote.history);
      hide TryAlone, UpdateTried, Untracked;
      attempts := attempts + 1;
      if err.None? && !failed {
        return true, false, attempts;
      }
      if err.Some? && err.value.permanent {
        return false, false, attempts;
      }
      if attempts < |envs| && env.wait.Cancelled? {
        return false, false, attempts;
      }
    }
    written, stopped := false, false;
  }

  lemma OneMoreUnresolved(i: nat, outcomes: Outcomes)
    ensures Unresolved(i + 1, outcomes) ==
      if i in outcomes then Unresolved(i, outcomes) else Unresolved(i, outcomes) + [i]
  {
    assert Unresolved(i, outcomes) + [] == Unresolved(i, outcomes);
  }

  lemma MarkOneMore(outcomes: Outcomes, numbers: seq<nat>, k: nat, outcome: Outcome)
    requires k < |numbers|
    ensures Marked(outcomes, numbers[..k + 1], outcome) ==
      Marked(outcomes, numbers[..k], outcome)[numbers[k] := outcome]
  {
  }

  lemma FillUnresolved(n: nat, outcomes: Outcomes, unresolved: seq<nat>, error: GitError)
    requires forall i :: i in unresolved <==> 0 <= i < n && i !in outcomes
    ensures Marked(outcomes, unresolved, Permanent(error)) == Resolve(n, outcomes, (i: nat) => Permanent(error))
  {
  }

  lemma ResolveOneMore(i: nat, outcomes: Outcomes, fill: nat -> Outcome)
    ensures i in Resolve(i, outcomes, fill) <==> i in outcomes
    ensures Resolve(0, outcomes, fill) == outcomes
    ensures Resolve(i + 1, outcomes, fill) ==
      if i in outcomes then Resolve(i, outcomes, fill) else Resolve(i, outcomes, fill)[i := fill(i)]
  {
  }

  lemma OneMoreRest(i: nat, outcomes: Outcomes, errors: Errors, last: Cause, budget: nat, drained: bool)
    ensures var rest := Rest(i, outcomes, errors, last, budget, drained);
      && (i in rest <==> i in outcomes)
      && Rest(0, outcomes, errors, last, budget, drained) == outcomes
      && Rest(i + 1, outcomes, errors, last, budget, drained)
         == if i in outcomes then rest else rest[i := Leftover(errors, last, budget, drained, i)]
  {
    var fill := (i: nat) => Leftover(errors, last, budget, drained, i);
    ResolveOneMore(i, outcomes, fill);
    assert forall k: nat :: Rest(k, outcomes, errors, last, budget, drained) == Resolve(k, outcomes, fill);
  }

  class BatchRun {
    const repo: GitRepo
    const batch: seq<Work>
    var outcomes: Outcomes
    var commitErrs: Errors

    constructor (repo: GitRepo, batch: seq<Work>)
      ensures this.repo == repo && this.batch == batch
      ensures outcomes == map[] && commitErrs == map[]
    {
      this.repo, this.batch := repo, batch;
      outcomes, commitErrs := map[], map[];
    }

    ghost function Now(committed: seq<nat>): Staging
      reads this, repo
    {
      Staging(repo.Copy(), outcomes, commitErrs, committed)
    }

    method UnresolvedRequests() returns (active: seq<nat>)
      ensures active == Unresolved(|batch|, outcomes)
    {
      active := [];
      for i := 0 to |batch|
        invariant active == Unresolved(i, outcomes)
      {
        OneMoreUnresolved(i, outcomes);
        hide Unresolved;
        if i !in outcomes {
          active := active + [i];
        }
      }
    }

    method ApplyRequest(i: nat, env: Attempt, ghost soFar: seq<nat>) returns (committed: bool)
      requires i < |batch|
      modifies this, repo
      ensures Now(if committed then soFar + [i] else soFar) == Stage(old(Now(soFar)), batch[i], i, env)
      ensures i in env.superseded ==> !committed && outcomes == old(outcomes)[i := Superseded]
      ensures i !in env.superseded && batch[i].Misconfigured? ==>
        !committed && outcomes == old(outcomes)[i := BadConfig]
      ensures i !in env.superseded && (batch[i].Unsupported? || batch[i].NoImages?) ==>
        !committed && outcomes == old(outcomes)[i := Done]
      ensures i in env.superseded || !batch[i].Write? ==>
        repo.Copy() == old(repo.Copy()) && commitErrs == old(commitErrs)
      ensures i !in env.superseded && batch[i].Write? ==>
        || (committed && outcomes == old(outcomes) && commitErrs == old(commitErrs) - {i})
        || (!committed && outcomes == old(outcomes)[i := Done] && commitErrs == old(commitErrs))
        || (&& !committed && i in env.faults && outcomes == old(outcomes)
            && commitErrs == old(commitErrs)[i := env.faults[i]])
    {
      if i in env.superseded {
        outcomes := outcomes[i := Superseded];
        return false;
      }
      match batch[i] {
        case Unsupported =>
          outcomes := outcomes[i := Done];
          return false;
        case Misconfigured =>
          outcomes := outcomes[i := BadConfig];
          return false;
        case NoImages =>
          outcomes := outcomes[i := Done];
          return false;
        case Write(file, params) =>
          var r := repo.CommitAppLocal(file, params, if i in env.faults then Some(env.faults[i]) else None);
          match r {
            case Failed(fault) =>
              commitErrs := commitErrs[i := fault];
              return false;
            case Unchanged =>
              outcomes := outcomes[i := Done];
              return false;
            case Committed =>
              commitErrs := commitErrs - {i};
              return true;
          }
      }
    }

    /** A commit for each of these requests in turn; the ones that got one. */
    method ApplyRequests(active: seq<nat>, env: Attempt) returns (committed: seq<nat>)
      requires Within(batch, active)
      modifies this, repo
      ensures Now(committed) == StageAll(old(Now([])), batch, active, env)
    {
      committed := [];
      for k := 0 to |active|
        invariant StageAll(Now(committed), batch, active[k..], env) == StageAll(old(Now([])), batch, active, env)
      {
        var applied := ApplyRequest(active[k], env, committed);
        assert active[k..][1..] == active[k + 1..];
        hide Stage;
        if applied {
          committed := committed + [active[k]];
        }
      }
      assert active[|active|..] == [];
    }

    /** One clone, a commit for every unresolved request, one push for all of them. */
    method RunBatchAttempt(env: Attempt) returns (committed: seq<nat>, err: Option<GitError>)
      requires repo.remote.history != []
      modifies this, repo, repo.remote
      ensures
        Attempted(Untracked(repo.Copy()), repo.remote.history, outcomes, commitErrs, committed, err) ==
        old(RunAttempt(batch, Untracked(repo.Copy()), repo.remote.history, outcomes, commitErrs, env))
    {
      hide Untracked, ResetTo, StageAll, Unresolved;
      var active := UnresolvedRequests();
      committed := [];
      err := repo.Clone(env.before, env.clone, env.keeps);
      if err.Some? {
        return;
      }
      committed := ApplyRequests(active, env);
      if committed == [] {
        return;
      }
      err := repo.Push(env.during, env.push);
    }

    method FailUnresolved(error: GitError)
      modifies this`outcomes
      ensures outcomes == Resolve(|batch|, old(outcomes), (i: nat) => Permanent(error))
    {
      var unresolved := UnresolvedRequests();
      for k := 0 to |unresolved|
        invariant outcomes == Marked(old(outcomes), unresolved[..k], Permanent(error))
      {
        MarkOneMore(old(outcomes), unresolved, k, Permanent(error));
        hide Marked;
        outcomes := outcomes[unresolved[k] := Permanent(error)];
      }
      assert unresolved[..|unresolved|] == unresolved;
      FillUnresolved(|batch|, old(outcomes), unresolved, error);
    }

    /** Settles what the attempt r decided; true when the loop must stop. */
    method RecordAttempt(committed: seq<nat>, err: Option<GitError>, ghost r: Attempted) returns (stop: bool)
      requires r.outcomes == outcomes && r.committed == committed && r.error == err
      modifies this`outcomes
      ensures outcomes == Settled(|batch|, r)
      ensures stop <==> err.Some? && err.value.permanent
    {
      if err.None? {
        for k := 0 to |committed|
          invariant outcomes == Marked(old(outcomes), committed[..k], Done)
        {
          MarkOneMore(old(outcomes), committed, k, Done);
          hide Marked;
          outcomes := outcomes[committed[k] := Done];
        }
        assert committed[..|committed|] == committed;
        return false;
      }
      if err.value.permanent {
        FailUnresolved(err.value);
        return true;
      }
      return false;
    }

    method ResolveRemaining(last: Cause, maxAttempts: nat, drained: bool)
      modifies this`outcomes
      ensures outcomes == Rest(|batch|, old(outcomes), commitErrs, last, maxAttempts, drained)
    {
      for i := 0 to |batch|
        invariant outcomes == Rest(i, old(outcomes), commitErrs, last, maxAttempts, drained)
      {
        OneMoreRest(i, old(outcomes), commitErrs, last, maxAttempts, drained);
        hide Rest;
        if i !in outcomes {
          var cause := if i in commitErrs then Commit(commitErrs[i]) else last;
          outcomes := outcomes[i := if drained then StoppedEarly(cause) else Exhausted(maxAttempts, cause)];
        }
      }
    }
  }

  /**
   The whole write-back of a batch: every request gets exactly one outcome, the attempts stay
   within the budget, the branch only grows, and for a well separated batch every reported
   success was on the branch at some instant of the call, as long as no file is written, left
   unstaged and kept by the next reset.
   */
  method RunBatchWriteBack(repo: GitRepo, batch: seq<Work>, envs: seq<Attempt>)
      returns (outcomes: Outcomes, attempts: nat)
    requires repo.remote.history != []
    modifies repo, repo.remote
    ensures Result(outcomes, repo.remote.history, attempts) ==
      WriteBack(batch, envs, old(Untracked(repo.Copy())), old(repo.remote.history))
    ensures forall i :: i in outcomes <==> 0 <= i < |batch|
    ensures attempts <= |envs| && old(repo.remote.history) <= repo.remote.history
    ensures GitOutcomes.AllFit(batch, envs, Result(outcomes, repo.remote.history, attempts))
    ensures WellSeparated(batch) && Tidy(envs, 0, old(Untracked(repo.Copy()))) ==>
      Truthful(batch, |old(repo.remote.history)| - 1, outcomes, repo.remote.history)
  {
    hide RunAttempt, Settled, Rest, Unresolved, Untracked, Truthful, WellSeparated, Tidy, GitOutcomes.AllFit;
    ghost var first, left := repo.remote.history, Untracked(repo.Copy());
    ghost var target := WriteBack(batch, envs, left, first);
    var run := new BatchRun(repo, batch);
    var last, drained := Unknown, false;
    attempts := 0;
    while attempts < |envs|
      invariant attempts <= |envs| && repo.remote.history != []
      invariant run.repo == repo && run.batch == batch && !drained
      invariant target ==
        Retry(batch, envs, attempts, Untracked(repo.Copy()), repo.remote.history, run.outcomes, run.commitErrs, last)
    {
      var active := run.UnresolvedRequests();
      if active == [] {
        break;
      }
      ghost var before := (Untracked(repo.Copy()), repo.remote.history, run.outcomes, run.commitErrs, last);
      var env := envs[attempts];
      var committed, err := run.RunBatchAttempt(env);
      ghost var r := Attempted(Untracked(repo.Copy()), repo.remote.history, run.outcomes, run.commitErrs, committed,
        err);
      AttemptKeepsBooks(batch, before.0, before.1, before.2, before.3, env);
      assert Decide(batch, envs, attempts, r, before.4) == target;
      if err.Some? {
        last := Git(err.value);
      }
      attempts := attempts + 1;
      var stop := run.RecordAttempt(committed, err, r);
      if stop {
        break;
      }
      var open := run.UnresolvedRequests();
      if open == [] {
        break;
      }
      if attempts < |envs| && env.wait.Draining? {
        drained := true;
        break;
      }
      if attempts < |envs| && env.wait.Cancelled? {
        last := WaitCancelled;
        break;
      }
    }
    assert Finish(|batch|, run.outcomes, run.commitErrs, last, repo.remote.history, attempts, |envs|, drained) ==
      target;
    run.ResolveRemaining(last, |envs|, drained);
    outcomes := run.outcomes;
    WriteBackIsComplete(batch, envs, left, first);
    GitOutcomes.EveryOutcomeHasItsCause(batch, envs, left, first);
    if WellSeparated(batch) && Tidy(envs, 0, left) {
      RetryIsTruthful(batch, envs, 0, |first| - 1, left, first, map[], map[], Unknown);
    }
  }
}
