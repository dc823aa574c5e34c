/**
 Files a commit wrote and never staged. A hard reset brings back every file the index knows;
 whether it also removes the others is left to the library, so each attempt says for itself.
 */
module GitLeftovers {
  import opened Common
  import opened Overrides
  import opened GitModel

  /** No commit of the attempt fails between writing its file and staging it. */
  predicate StagesWhatItWrites(env: Attempt) {
    forall i :: i in env.faults ==> !env.faults[i].Written?
  }

  /** The attempt begins with the tip's files and no others. */
  predicate CleanStart(left: Tree, env: Attempt) {
    !env.keeps || left == map[]
  }

  lemma CleanReset(tip: Tree, left: Tree, env: Attempt)
    requires CleanStart(left, env)
    ensures ResetTo(tip, left, env.keeps) == CloneOf(tip)
  {
    assert map[] + tip == tip;
  }

  /** From attempt k on, either resets leave no other files, or there never are any. */
  predicate Tidy(envs: seq<Attempt>, k: nat, left: Tree) {
    || (forall m :: k <= m < |envs| ==> !envs[m].keeps)
    || (left == map[] && forall m :: k <= m < |envs| ==> StagesWhatItWrites(envs[m]))
  }

  lemma {:induction false} StagingLeavesNothing(st: Staging, batch: seq<Work>, active: seq<nat>, env: Attempt)
    requires Within(batch, active) && StagesWhatItWrites(env) && st.local.worktree.Keys <= st.local.index.Keys
    ensures var l := StageAll(st, batch, active, env).local; l.worktree.Keys <= l.index.Keys
    decreases |active|
  {
    if active != [] {
      StagingLeavesNothing(Stage(st, batch[active[0]], active[0], env), batch, active[1..], env);
    }
  }

  lemma AttemptLeavesNothing(batch: seq<Work>, left: Tree, history: seq<Tree>, outcomes: Outcomes, errors: Errors,
        env: Attempt)
    requires history != [] && left == map[] && StagesWhatItWrites(env)
    ensures RunAttempt(batch, left, history, outcomes, errors, env).left == map[]
  {
    if env.clone.None? {
      var tip := Tip(history + env.before);
      CleanReset(tip, left, env);
      var start := Cloned(ResetTo(tip, left, env.keeps), outcomes, errors);
      StagingLeavesNothing(start, batch, Unresolved(|batch|, outcomes), env);
      var l := StageAll(start, batch, Unresolved(|batch|, outcomes), env).local;
      assert Untracked(l) == map[];
    }
  }

  lemma AttemptStaysTidy(batch: seq<Work>, envs: seq<Attempt>, k: nat, left: Tree, history: seq<Tree>,
      outcomes: Outcomes, errors: Errors)
    requires history != [] && k < |envs| && Tidy(envs, k, left)
    ensures CleanStart(left, envs[k])
    ensures Tidy(envs, k + 1, RunAttempt(batch, left, history, outcomes, errors, envs[k]).left)
  {
    if left == map[] && StagesWhatItWrites(envs[k]) {
      AttemptLeavesNothing(batch, left, history, outcomes, errors, envs[k]);
    }
  }
}
