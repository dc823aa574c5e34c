/** A batch push against the same requests written back one at a time. */
module GitRefinement {
  import opened Common
  import opened Overrides
  import opened GitModel
  import opened GitLeftovers
  import opened GitTruth

  /** Clone, commit one application, push if something was committed. */
  function UpdateAlone(tip: Tree, file: Path, params: seq<Param>): Tree {
    if Changes(tip, file, params) then CommitOn(CloneOf(tip), file, params).head else tip
  }

  /** The requests an attempt writes: the ones that want something, still stand, and whose commit works. */
  predicate Writes(batch: seq<Work>, i: nat, env: Attempt)
    requires i < |batch|
  {
    batch[i].Write? && i !in env.superseded && i !in env.faults
  }

  function UpdateEach(tip: Tree, batch: seq<Work>, active: seq<nat>, env: Attempt): Tree
    requires Within(batch, active)
    decreases |active|
  {
    if active == [] then tip
    else
      var i := active[0];
      var next := if Writes(batch, i, env) then UpdateAlone(tip, batch[i].file, batch[i].params) else tip;
      UpdateEach(next, batch, active[1..], env)
  }

  /**
   A commit of i that fails after writing its file is committed along by k: when k commits to
   that very file or, once i's file is staged, to any file.
   */
  predicate LeaksInto(batch: seq<Work>, i: nat, k: nat, env: Attempt)
    requires i < |batch| && k < |batch|
  {
    && batch[i].Write? && i !in env.superseded && i in env.faults && Writes(batch, k, env)
    && (env.faults[i].Staged? || (env.faults[i].Written? && batch[i].file == batch[k].file))
  }

  predicate LeaksAt(batch: seq<Work>, active: seq<nat>, env: Attempt, j: nat, k: nat)
    requires Within(batch, active) && j < |active| && k < |active|
  {
    LeaksInto(batch, active[j], active[k], env)
  }

  /** Some failed commit is committed along by a later request. */
  ghost predicate Leaks(batch: seq<Work>, active: seq<nat>, env: Attempt)
    requires Within(batch, active)
  {
    exists j, k :: 0 <= j < k < |active| && LeaksAt(batch, active, env, j, k)
  }

  lemma LeaksOfRest(batch: seq<Work>, active: seq<nat>, env: Attempt)
    requires Within(batch, active) && active != []
    ensures Leaks(batch, active[1..], env) ==> Leaks(batch, active, env)
  {
    if Leaks(batch, active[1..], env) {
      var j, k :| 0 <= j < k < |active[1..]| && LeaksAt(batch, active[1..], env, j, k);
      assert LeaksAt(batch, active, env, j + 1, k + 1);
    }
  }

  /** Nothing uncommitted can reach what these requests still commit. */
  predicate CleanFor(l: Local, batch: seq<Work>, active: seq<nat>, env: Attempt)
    requires Within(batch, active)
  {
    forall k :: 0 <= k < |active| && Writes(batch, active[k], env) ==>
      l.index == l.head && SameFile(l.worktree, l.head, batch[active[k]].file)
  }

  predicate SameFile(s: Tree, t: Tree, file: Path) {
    (file in s <==> file in t) && (file in s ==> s[file] == t[file])
  }

  lemma StageStaysClean(st: Staging, batch: seq<Work>, active: seq<nat>, env: Attempt)
    requires Within(batch, active) && active != [] && !Leaks(batch, active, env)
      && CleanFor(st.local, batch, active, env)
    ensures var i := active[0];
      var l := Stage(st, batch[i], i, env).local;
      && CleanFor(l, batch, active[1..], env)
      && l.head ==
         if Writes(batch, i, env) then UpdateAlone(st.local.head, batch[i].file, batch[i].params) else st.local.head
  {
    var i, rest := active[0], active[1..];
    var l := Stage(st, batch[i], i, env).local;
    forall k | 0 <= k < |rest| && Writes(batch, rest[k], env)
      ensures l.index == l.head && SameFile(l.worktree, l.head, batch[rest[k]].file)
    {
      assert rest[k] == active[k + 1];
      assert !LeaksAt(batch, active, env, 0, k + 1);
    }
  }

  lemma {:induction false} StagingIsUpdateEach(st: Staging, batch: seq<Work>, active: seq<nat>, env: Attempt)
    requires Within(batch, active) && !Leaks(batch, active, env) && CleanFor(st.local, batch, active, env)
    ensures StageAll(st, batch, active, env).local.head == UpdateEach(st.local.head, batch, active, env)
    decreases |active|
  {
    if active != [] {
      StageStaysClean(st, batch, active, env);
      LeaksOfRest(batch, active, env);
      hide Leaks, CleanFor;
      StagingIsUpdateEach(Stage(st, batch[active[0]], active[0], env), batch, active[1..], env);
    }
  }

  /** If the attempt pushes, it adds the tree that one write-back after another would leave, right on the cloned tip. */
  predicate OneByOne(batch: seq<Work>, left: Tree, history: seq<Tree>, outcomes: Outcomes, errors: Errors, env: Attempt)
    requires history != []
  {
    var r, cloned := RunAttempt(batch, left, history, outcomes, errors, env), history + env.before;
    r.error.None? && r.committed != [] ==>
      r.history == cloned + [UpdateEach(Tip(cloned), batch, Unresolved(|batch|, outcomes), env)]
  }

  /**
   A push that succeeds equals the requests one after another, whether or not they share files,
   unless a failure leaks.
   */
  lemma PushEqualsOneByOne(batch: seq<Work>, left: Tree, history: seq<Tree>, outcomes: Outcomes, errors: Errors,
        env: Attempt)
    requires history != [] && CleanStart(left, env) && !Leaks(batch, Unresolved(|batch|, outcomes), env)
    ensures OneByOne(batch, left, history, outcomes, errors, env)
  {
    if env.clone.None? {
      var cloned, active := history + env.before, Unresolved(|batch|, outcomes);
      var start := Cloned(CloneOf(Tip(cloned)), outcomes, errors);
      CleanReset(Tip(cloned), left, env);
      assert CleanFor(start.local, batch, active, env);
      StagingIsUpdateEach(start, batch, active, env);
      var st := StageAll(start, batch, active, env);
      assert RunAttempt(batch, left, history, outcomes, errors, env) == Publish(cloned, st, env);
      hide RunAttempt, StageAll, UpdateEach, Unresolved, Leaks, CleanFor;
      PushedTree(cloned, st, env);
    }
  }

  lemma PushedTree(cloned: seq<Tree>, st: Staging, env: Attempt)
    ensures var r := Publish(cloned, st, env);
      r.error.None? && r.committed != [] ==> r.history == cloned + [st.local.head]
  {
  }

  /**
   Whatever an attempt does, dirty failures and unheard pushes included, the commits it adds keep
   every parameter no request of the batch names: a competing writer's change is never lost.
   */
  lemma AttemptKeepsOthers(batch: seq<Work>, left: Tree, history: seq<Tree>, outcomes: Outcomes, errors: Errors,
        env: Attempt, file: Path, name: string)
    requires history != [] && CleanStart(left, env)
    requires forall i :: 0 <= i < |batch| ==> !Sets(batch[i], file, name)
    ensures var r, cloned := RunAttempt(batch, left, history, outcomes, errors, env), history + env.before;
      && cloned <= r.history
      && (r.history == cloned || r.history == cloned + env.during
          || (|r.history| == |cloned| + 1 && Entry(Tip(r.history), file, name) == Entry(Tip(cloned), file, name)))
  {
    if env.clone.None? {
      var cloned, active := history + env.before, Unresolved(|batch|, outcomes);
      var start := Cloned(CloneOf(Tip(cloned)), outcomes, errors);
      CleanReset(Tip(cloned), left, env);
      StagingKeepsOthers(start, batch, active, env, file, name, Entry(Tip(cloned), file, name));
      PublishKeepsOthers(cloned, StageAll(start, batch, active, env), env, file, name);
    }
  }

  lemma PublishKeepsOthers(cloned: seq<Tree>, st: Staging, env: Attempt, file: Path, name: string)
    requires cloned != [] && Entry(st.local.head, file, name) == Entry(Tip(cloned), file, name)
    ensures var r := Publish(cloned, st, env);
      && cloned <= r.history
      && (r.history == cloned || r.history == cloned + env.during
          || (|r.history| == |cloned| + 1 && Entry(Tip(r.history), file, name) == Entry(Tip(cloned), file, name)))
  {
  }

  /** In the files a batch touches, the entries already there keep their order. */
  lemma UpdateKeepsOrder(tip: Tree, file: Path, params: seq<Param>)
    requires file in tip
    ensures var after := UpdateAlone(tip, file, params);
      && after.Keys == tip.Keys
      && (forall other :: other in tip && other != file ==> after[other] == tip[other])
      && |tip[file]| <= |after[file]|
      && (forall k :: 0 <= k < |tip[file]| ==> after[file][k].name == tip[file][k].name)
  {
    MergeHasShape(tip[file], params);
    ShapeNames(tip[file], params, Merge(tip[file], params));
  }
}
