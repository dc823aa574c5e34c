/** What the batched write-back promises, for every behaviour of the environment. */
module GitTruth {
  import opened Common
  import opened Overrides
  import opened GitModel
  import opened GitLeftovers

  /** The tree shows every parameter the request wants. */
  predicate Holds(tree: Tree, work: Work) {
    work.Write? ==> forall p :: p in work.params ==> Entry(tree, work.file, p.name) == Some(p)
  }

  /** Some entry of the history from position `from` on held the request. */
  ghost predicate HeldSince(history: seq<Tree>, from: nat, work: Work) {
    exists v :: from <= v < |history| && Holds(history[v], work)
  }

  predicate Consistent(params: seq<Param>) {
    forall p, q :: p in params && q in params && p.name == q.name ==> p == q
  }

  /** No request contradicts itself, and no two set the same parameter of the same file. */
  ghost predicate WellSeparated(batch: seq<Work>) {
    && (forall i :: 0 <= i < |batch| && batch[i].Write? ==> Consistent(batch[i].params))
    && (forall i, j :: 0 <= i < j < |batch| && batch[i].Write? && batch[j].Write? && batch[i].file == batch[j].file ==>
          Names(batch[i].params) !! Names(batch[j].params))
  }

  /** Every request reported as done was held by the branch at some instant of the call. */
  ghost predicate Truthful(batch: seq<Work>, from: nat, outcomes: Outcomes, history: seq<Tree>) {
    forall i :: 0 <= i < |batch| && i in outcomes && outcomes[i] == Done ==> HeldSince(history, from, batch[i])
  }

  /** What may happen: resets that keep untracked files, and commits that fail between writing and staging. */
  predicate Admits(keeps: bool, unstaged: bool, envs: seq<Attempt>, left: Tree) {
    && (!keeps ==> forall k :: 0 <= k < |envs| ==> !envs[k].keeps)
    && (!unstaged ==> left == map[] && forall k :: 0 <= k < |envs| ==> StagesWhatItWrites(envs[k]))
  }

  ghost predicate AlwaysTruthful(batch: seq<Work>, keeps: bool, unstaged: bool) {
    forall envs, left, history ::
      |history| > 0 && Admits(keeps, unstaged, envs, left) ==>
        var result := WriteBack(batch, envs, left, history);
        Truthful(batch, |history| - 1, result.outcomes, result.history)
  }

  /** No request asks for any parameter. */
  predicate AsksForNothing(batch: seq<Work>) {
    forall i :: 0 <= i < |batch| && batch[i].Write? ==> batch[i].params == []
  }

  /** The request sets this parameter of this file. */
  predicate Sets(work: Work, file: Path, name: string) {
    work.Write? && work.file == file && name in Names(work.params)
  }

  lemma EntryOfContent(tree: Tree, file: Path, params: seq<Param>, f: Path, name: string)
    ensures Consistent(params) && f == file && name in Names(params) ==>
      Entry(tree[file := Content(tree, file, params)], f, name) == Last(params, name)
    ensures f != file || name !in Names(params) ==>
      Entry(tree[file := Content(tree, file, params)], f, name) == Entry(tree, f, name)
  {
    if file in tree {
      MergeLookup(tree[file], params, name);
    } else if name in Names(params) {
      if Consistent(params) { OnlyOne(params, name); }
    } else {
      NamesAt(params, name);
    }
  }

  /** In consistent content the first entry of a name is the last one. */
  lemma OnlyOne(params: seq<Param>, name: string)
    requires Consistent(params) && name in Names(params)
    ensures Lookup(params, name) == Last(params, name)
  {
    NamesAt(params, name);
    LastIn(params, name);
    assert params[IndexOf(params, name)] in params;
  }

  /** Files, staged content and commits all show this entry. */
  predicate Reads(l: Local, file: Path, name: string, entry: Option<Param>) {
    Entry(l.worktree, file, name) == Entry(l.index, file, name) == Entry(l.head, file, name) == entry
  }

  /** Committing a request, or failing to, leaves every parameter it does not set. */
  lemma StageKeepsReads(st: Staging, work: Work, i: nat, env: Attempt, file: Path, name: string, entry: Option<Param>)
    requires Reads(st.local, file, name, entry) && !Sets(work, file, name)
    ensures Reads(Stage(st, work, i, env).local, file, name, entry)
  {
    if work.Write? {
      EntryOfContent(st.local.worktree, work.file, work.params, file, name);
    }
  }

  /** Whatever happened while staging, a parameter no staged request sets is as the clone had it. */
  lemma {:induction false} StagingKeepsOthers(st: Staging, batch: seq<Work>, active: seq<nat>, env: Attempt,
      file: Path, name: string, entry: Option<Param>)
    requires Within(batch, active) && Reads(st.local, file, name, entry)
    requires forall k :: 0 <= k < |active| ==> !Sets(batch[active[k]], file, name)
    ensures Reads(StageAll(st, batch, active, env).local, file, name, entry)
    decreases |active|
  {
    if active != [] {
      StageKeepsReads(st, batch[active[0]], active[0], env, file, name, entry);
      StagingKeepsOthers(Stage(st, batch[active[0]], active[0], env), batch, active[1..], env, file, name, entry);
    }
  }

  /** The clone still shows the parameters of this request as the base did. */
  predicate Unseen(base: Tree, l: Local, work: Work) {
    work.Write? ==> forall p :: p in work.params ==> Reads(l, work.file, p.name, Entry(base, work.file, p.name))
  }

  /** Files, staged content and commits show this request. */
  predicate Shown(l: Local, work: Work) {
    work.Write? ==> forall p :: p in work.params ==> Reads(l, work.file, p.name, Some(p))
  }

  predicate Apart(a: Work, b: Work) {
    a.Write? && b.Write? && a.file == b.file ==> Names(a.params) !! Names(b.params)
  }

  lemma ApartSetsNone(a: Work, b: Work, p: Param)
    requires Apart(a, b) && b.Write? && p in b.params
    ensures !Sets(a, b.file, p.name)
  {
    assert p.name in Names(b.params);
  }

  /** Committing one request, or failing to, disturbs no request apart from it. */
  lemma StageDisturbsNoOther(st: Staging, work: Work, i: nat, env: Attempt, other: Work, base: Tree)
    requires Apart(work, other)
    ensures Shown(st.local, other) ==> Shown(Stage(st, work, i, env).local, other)
    ensures Unseen(base, st.local, other) ==> Unseen(base, Stage(st, work, i, env).local, other)
  {
    hide Stage, Reads;
    if other.Write? {
      forall p | p in other.params
        ensures Reads(st.local, other.file, p.name, Some(p)) ==>
          Reads(Stage(st, work, i, env).local, other.file, p.name, Some(p))
        ensures var entry := Entry(base, other.file, p.name);
          Reads(st.local, other.file, p.name, entry) ==> Reads(Stage(st, work, i, env).local, other.file, p.name, entry)
      {
        ApartSetsNone(work, other, p);
        if Reads(st.local, other.file, p.name, Some(p)) {
          StageKeepsReads(st, work, i, env, other.file, p.name, Some(p));
        }
        if Reads(st.local, other.file, p.name, Entry(base, other.file, p.name)) {
          StageKeepsReads(st, work, i, env, other.file, p.name, Entry(base, other.file, p.name));
        }
      }
    }
  }

  /** A request found already there was there in the base; a committed one is shown by the commits. */
  lemma StageSettlesItself(st: Staging, work: Work, i: nat, env: Attempt, base: Tree)
    requires work.Write? ==> Consistent(work.params)
    requires Unseen(base, st.local, work) && i !in st.outcomes && i !in st.committed
    ensures var st' := Stage(st, work, i, env);
      && (i in st'.outcomes && st'.outcomes[i] == Done ==> Holds(base, work))
      && (i in st'.committed ==> Shown(st'.local, work))
  {
    if work.Write? {
      var tree := st.local.worktree;
      var content := Content(tree, work.file, work.params);
      forall p | p in work.params ensures Entry(tree[work.file := content], work.file, p.name) == Some(p) {
        EntryOfContent(tree, work.file, work.params, work.file, p.name);
        LastIn(work.params, p.name);
      }
      if !Changes(tree, work.file, work.params) {
        assert tree[work.file := content] == tree;
      }
    }
  }

  /** What staging one request adds to the books. */
  lemma StageAdds(st: Staging, work: Work, i: nat, env: Attempt)
    ensures var st' := Stage(st, work, i, env);
      && (forall j :: j in st'.committed ==> j in st.committed || j == i)
      && (forall j :: j != i ==> (j in st'.outcomes <==> j in st.outcomes))
      && (forall j :: j != i && j in st.outcomes ==> st'.outcomes[j] == st.outcomes[j])
      && (forall j :: j != i && j in st.errors ==> j in st'.errors && st'.errors[j] == st.errors[j])
      && (forall j :: j in st.committed ==> j in st'.committed)
  {
  }

  predicate Ascending(active: seq<nat>) {
    forall j, k :: 0 <= j < k < |active| ==> active[j] < active[k]
  }

  /** The invariant of staging a well-separated batch on a clone of base. */
  ghost predicate StagingInv(base: Tree, before: Outcomes, batch: seq<Work>, st: Staging, active: seq<nat>)
    requires Within(batch, active)
  {
    && (forall i :: i in st.outcomes && i !in before && st.outcomes[i] == Done ==> i < |batch| && Holds(base, batch[i]))
    && (forall i :: i in st.committed ==> i < |batch| && Shown(st.local, batch[i]))
    && (forall k :: 0 <= k < |active| ==>
          Unseen(base, st.local, batch[active[k]]) && active[k] !in st.outcomes && active[k] !in st.committed)
  }

  lemma StageKeepsInv(base: Tree, before: Outcomes, batch: seq<Work>, st: Staging, active: seq<nat>, env: Attempt)
    requires Within(batch, active) && Ascending(active) && active != [] && WellSeparated(batch)
    requires StagingInv(base, before, batch, st, active)
    ensures StagingInv(base, before, batch, Stage(st, batch[active[0]], active[0], env), active[1..])
  {
    var i, rest := active[0], active[1..];
    var st' := Stage(st, batch[i], i, env);
    StageSettlesItself(st, batch[i], i, env, base);
    StageAdds(st, batch[i], i, env);
    forall j | 0 <= j < |batch| && j != i ensures Apart(batch[i], batch[j]) {}
    hide Stage, Unseen, Shown, Holds, Apart, WellSeparated;
    forall j | j in st'.committed ensures j < |batch| && Shown(st'.local, batch[j]) {
      if j != i { StageDisturbsNoOther(st, batch[i], i, env, batch[j], base); }
    }
    forall k | 0 <= k < |rest|
      ensures Unseen(base, st'.local, batch[rest[k]]) && rest[k] !in st'.outcomes && rest[k] !in st'.committed
    {
      assert rest[k] == active[k + 1] && active[0] < active[k + 1];
      StageDisturbsNoOther(st, batch[i], i, env, batch[rest[k]], base);
    }
  }

  lemma {:induction false} StagingIsTruthful(base: Tree, before: Outcomes, batch: seq<Work>, st: Staging,
      active: seq<nat>, env: Attempt)
    requires Within(batch, active) && Ascending(active) && WellSeparated(batch)
    requires StagingInv(base, before, batch, st, active)
    ensures StagingInv(base, before, batch, StageAll(st, batch, active, env), [])
    decreases |active|
  {
    if active != [] {
      StageKeepsInv(base, before, batch, st, active, env);
      StagingIsTruthful(base, before, batch, Stage(st, batch[active[0]], active[0], env), active[1..], env);
    }
  }

  lemma TruthLasts(batch: seq<Work>, from: nat, outcomes: Outcomes, history: seq<Tree>, longer: seq<Tree>)
    requires Truthful(batch, from, outcomes, history) && history <= longer
    ensures Truthful(batch, from, outcomes, longer)
  {
    forall i | 0 <= i < |batch| && i in outcomes && outcomes[i] == Done ensures HeldSince(longer, from, batch[i]) {
      var v :| from <= v < |history| && Holds(history[v], batch[i]);
      assert longer[v] == history[v];
    }
  }

  /** Bookkeeping of staging: nothing settled is touched, and what is committed is not settled yet. */
  ghost predicate Books(n: nat, before: Outcomes, st: Staging, active: seq<nat>) {
    && (forall i :: i in before ==> i in st.outcomes && st.outcomes[i] == before[i])
    && (forall i :: i in st.outcomes ==> i in before || i < n)
    && (forall i :: i in st.committed ==> i < n && i !in st.outcomes)
    && (forall k :: 0 <= k < |active| ==> active[k] < n && active[k] !in st.outcomes && active[k] !in st.committed)
  }

  lemma StageKeepsBooks(batch: seq<Work>, before: Outcomes, st: Staging, active: seq<nat>, env: Attempt)
    requires Ascending(active) && active != [] && Books(|batch|, before, st, active)
    ensures Books(|batch|, before, Stage(st, batch[active[0]], active[0], env), active[1..])
  {
    var i, rest := active[0], active[1..];
    var st' := Stage(st, batch[i], i, env);
    StageAdds(st, batch[i], i, env);
    forall k | 0 <= k < |rest| ensures rest[k] < |batch| && rest[k] !in st'.outcomes && rest[k] !in st'.committed {
      assert rest[k] == active[k + 1] && active[0] < active[k + 1];
    }
  }

  lemma {:induction false} StagingKeepsBooks(batch: seq<Work>, before: Outcomes, st: Staging, active: seq<nat>,
      env: Attempt)
    requires Within(batch, active) && Ascending(active) && Books(|batch|, before, st, active)
    ensures Books(|batch|, before, StageAll(st, batch, active, env), [])
    decreases |active|
  {
    if active != [] {
      StageKeepsBooks(batch, before, st, active, env);
      StagingKeepsBooks(batch, before, Stage(st, batch[active[0]], active[0], env), active[1..], env);
    }
  }

  lemma AttemptKeepsBooks(batch: seq<Work>, left: Tree, history: seq<Tree>, outcomes: Outcomes, errors: Errors,
      env: Attempt)
    requires history != []
    ensures var r := RunAttempt(batch, left, history, outcomes, errors, env);
      && history <= r.history
      && (forall i :: i in outcomes ==> i in r.outcomes && r.outcomes[i] == outcomes[i])
      && (forall i :: i in r.outcomes ==> i in outcomes || i < |batch|)
      && (forall i :: i in r.committed ==> i < |batch| && i !in r.outcomes)
  {
    if env.clone.None? {
      var start := Cloned(ResetTo(Tip(history + env.before), left, env.keeps), outcomes, errors);
      var active := Unresolved(|batch|, outcomes);
      assert Books(|batch|, outcomes, start, active);
      StagingKeepsBooks(batch, outcomes, start, active, env);
    }
  }

  /** An attempt never changes an outcome once set. */
  lemma SettlingKeepsOutcomes(batch: seq<Work>, left: Tree, history: seq<Tree>, outcomes: Outcomes, errors: Errors,
      env: Attempt)
    requires history != []
    ensures var settled := Settled(|batch|, RunAttempt(batch, left, history, outcomes, errors, env));
      && (forall i :: i in outcomes ==> i in settled && settled[i] == outcomes[i])
      && (forall i :: i in settled ==> i in outcomes || i < |batch|)
  {
    AttemptKeepsBooks(batch, left, history, outcomes, errors, env);
  }

  /** What an attempt that cloned a tip reports, against that tip and the commits it pushed. */
  lemma AttemptShows(batch: seq<Work>, left: Tree, history: seq<Tree>, outcomes: Outcomes, errors: Errors,
      env: Attempt)
    requires WellSeparated(batch) && history != [] && env.clone.None? && CleanStart(left, env)
    ensures var r, base := RunAttempt(batch, left, history, outcomes, errors, env), Tip(history + env.before);
      && (forall i :: i in r.outcomes && i !in outcomes && r.outcomes[i] == Done ==>
        i < |batch| && Holds(base, batch[i]))
      && (r.error.None? ==> forall i :: i in r.committed ==> i < |batch| && Holds(Tip(r.history), batch[i]))
      && |history + env.before| <= |r.history| && r.history[|history + env.before| - 1] == base
  {
    hide ResetTo, CloneOf, Cloned, Unresolved, WellSeparated, CleanStart, StageAll, Unseen, Untracked, Within;
    var cloned, active := history + env.before, Unresolved(|batch|, outcomes);
    var start := Cloned(CloneOf(Tip(cloned)), outcomes, errors);
    CleanReset(Tip(cloned), left, env);
    CloneFits(batch, cloned, outcomes, errors, active);
    StagingIsTruthful(Tip(cloned), outcomes, batch, start, active, env);
  }

  lemma CloneFits(batch: seq<Work>, cloned: seq<Tree>, outcomes: Outcomes, errors: Errors, active: seq<nat>)
    requires cloned != [] && Within(batch, active) && forall k :: 0 <= k < |active| ==> active[k] !in outcomes
    ensures StagingInv(Tip(cloned), outcomes, batch, Cloned(CloneOf(Tip(cloned)), outcomes, errors), active)
  {
  }

  /** One attempt only reports as done what the cloned tip or the pushed commit shows. */
  lemma AttemptIsTruthful(batch: seq<Work>, from: nat, left: Tree, history: seq<Tree>, outcomes: Outcomes,
        errors: Errors, env: Attempt)
    requires WellSeparated(batch) && from < |history| && CleanStart(left, env)
    requires Truthful(batch, from, outcomes, history)
    ensures var r := RunAttempt(batch, left, history, outcomes, errors, env);
      history <= r.history && Truthful(batch, from, Settled(|batch|, r), r.history)
  {
    var r := RunAttempt(batch, left, history, outcomes, errors, env);
    AttemptKeepsBooks(batch, left, history, outcomes, errors, env);
    TruthLasts(batch, from, outcomes, history, r.history);
    if env.clone.None? {
      AttemptShows(batch, left, history, outcomes, errors, env);
      SettlingIsTruthful(batch, from, outcomes, r, |history + env.before| - 1);
    }
  }

  lemma SettlingIsTruthful(batch: seq<Work>, from: nat, outcomes: Outcomes, r: Attempted, tip: nat)
    requires from <= tip < |r.history|
    requires Truthful(batch, from, outcomes, r.history)
    requires forall i :: i in outcomes ==> i in r.outcomes && r.outcomes[i] == outcomes[i]
    requires forall i :: i in r.committed ==> i !in r.outcomes
    requires forall i :: i in r.outcomes && i !in outcomes && r.outcomes[i] == Done ==>
      i < |batch| && Holds(r.history[tip], batch[i])
    requires r.error.None? ==> forall i :: i in r.committed ==> i < |batch| && Holds(Tip(r.history), batch[i])
    ensures Truthful(batch, from, Settled(|batch|, r), r.history)
  {
    var settled := Settled(|batch|, r);
    forall i | 0 <= i < |batch| && i in settled && settled[i] == Done ensures HeldSince(r.history, from, batch[i]) {
      if i in r.outcomes {
        assert r.outcomes[i] == Done;
        if i !in outcomes { assert Holds(r.history[tip], batch[i]); }
      } else {
        assert r.error.None? && i in r.committed;
        assert Holds(r.history[|r.history| - 1], batch[i]);
      }
    }
  }

  /** The whole loop: no retry, fault, competing writer or shutdown makes a reported success untrue. */
  lemma {:induction false} RetryIsTruthful(batch: seq<Work>, envs: seq<Attempt>, k: nat, from: nat, left: Tree,
      history: seq<Tree>, outcomes: Outcomes, errors: Errors, last: Cause)
    requires WellSeparated(batch) && from < |history| && k <= |envs| && Tidy(envs, k, left)
    requires Truthful(batch, from, outcomes, history)
    ensures var result := Retry(batch, envs, k, left, history, outcomes, errors, last);
      Truthful(batch, from, result.outcomes, result.history)
    decreases |envs| - k, 1
  {
    FinishIsTruthful(batch, from, outcomes, errors, history);
    if k < |envs| {
      AttemptStaysTidy(batch, envs, k, left, history, outcomes, errors);
      AttemptIsTruthful(batch, from, left, history, outcomes, errors, envs[k]);
      DecideIsTruthful(batch, envs, k, from, RunAttempt(batch, left, history, outcomes, errors, envs[k]), last);
    }
  }

  lemma {:induction false} DecideIsTruthful(batch: seq<Work>, envs: seq<Attempt>, k: nat, from: nat, r: Attempted,
      last: Cause)
    requires WellSeparated(batch) && from < |r.history| && k < |envs| && Tidy(envs, k + 1, r.left)
    requires Truthful(batch, from, Settled(|batch|, r), r.history)
    ensures var result := Decide(batch, envs, k, r, last);
      Truthful(batch, from, result.outcomes, result.history)
    decreases |envs| - k, 0
  {
    hide Truthful, HeldSince, WellSeparated, Settled, Retry;
    FinishIsTruthful(batch, from, Settled(|batch|, r), r.errors, r.history);
    RetryIsTruthful(batch, envs, k + 1, from, r.left, r.history, Settled(|batch|, r), r.errors,
                    if r.error.Some? then Git(r.error.value) else last);
  }

  /** Requests left over are never reported as done. */
  lemma FinishIsTruthful(batch: seq<Work>, from: nat, outcomes: Outcomes, errors: Errors, history: seq<Tree>)
    requires Truthful(batch, from, outcomes, history)
    ensures forall last, made, budget, drained :: Truthful(batch, from,
      Finish(|batch|, outcomes, errors, last, history, made, budget, drained).outcomes, history)
  {
  }

  /** Every request ends with exactly one outcome, settled ones keep theirs, and the budget bounds the attempts. */
  ghost predicate Complete(n: nat, outcomes: Outcomes, history: seq<Tree>, budget: nat, result: Result) {
    && (forall i :: 0 <= i < n ==> i in result.outcomes)
    && (forall i :: i in result.outcomes ==> i in outcomes || i < n)
    && (forall i :: i in outcomes ==> i in result.outcomes && result.outcomes[i] == outcomes[i])
    && result.attempts <= budget
    && history <= result.history
  }

  lemma FinishIsComplete(n: nat, outcomes: Outcomes, errors: Errors, last: Cause, history: seq<Tree>, made: nat,
      budget: nat, drained: bool)
    requires made <= budget
    ensures Complete(n, outcomes, history, budget, Finish(n, outcomes, errors, last, history, made, budget, drained))
  {
  }

  lemma {:induction false} RetryIsComplete(batch: seq<Work>, envs: seq<Attempt>, k: nat, left: Tree, history: seq<Tree>,
      outcomes: Outcomes, errors: Errors, last: Cause)
    requires history != [] && k <= |envs|
    ensures Complete(|batch|, outcomes, history, |envs|, Retry(batch, envs, k, left, history, outcomes, errors, last))
    decreases |envs| - k, 1
  {
    FinishIsComplete(|batch|, outcomes, errors, last, history, k, |envs|, false);
    if k < |envs| {
      var r := RunAttempt(batch, left, history, outcomes, errors, envs[k]);
      SettlingKeepsOutcomes(batch, left, history, outcomes, errors, envs[k]);
      AttemptKeepsBooks(batch, left, history, outcomes, errors, envs[k]);
      DecideIsComplete(batch, envs, k, r, last);
    }
  }

  lemma {:induction false} DecideIsComplete(batch: seq<Work>, envs: seq<Attempt>, k: nat, r: Attempted, last: Cause)
    requires r.history != [] && k < |envs|
    ensures Complete(|batch|, Settled(|batch|, r), r.history, |envs|, Decide(batch, envs, k, r, last))
    decreases |envs| - k, 0
  {
    var settled := Settled(|batch|, r);
    var latest := if r.error.Some? then Git(r.error.value) else last;
    if (r.error.Some? && r.error.value.permanent) || Unresolved(|batch|, settled) == [] {
      FinishIsComplete(|batch|, settled, r.errors, latest, r.history, k + 1, |envs|, false);
    } else if k + 1 < |envs| && envs[k].wait.Draining? {
      FinishIsComplete(|batch|, settled, r.errors, latest, r.history, k + 1, |envs|, true);
    } else if k + 1 < |envs| && envs[k].wait.Cancelled? {
      FinishIsComplete(|batch|, settled, r.errors, WaitCancelled, r.history, k + 1, |envs|, false);
    } else {
      RetryIsComplete(batch, envs, k + 1, r.left, r.history, settled, r.errors, latest);
    }
  }

  /** What a caller gets from a whole write-back. */
  lemma WriteBackIsComplete(batch: seq<Work>, envs: seq<Attempt>, left: Tree, history: seq<Tree>)
    requires history != []
    ensures var result := WriteBack(batch, envs, left, history);
      && (forall i :: i in result.outcomes <==> 0 <= i < |batch|)
      && result.attempts <= |envs|
      && history <= result.history
  {
    RetryIsComplete(batch, envs, 0, left, history, map[], map[], Unknown);
  }

  lemma SeparatedIsTruthful(batch: seq<Work>, keeps: bool, unstaged: bool)
    requires WellSeparated(batch) && (keeps && unstaged ==> AsksForNothing(batch))
    ensures AlwaysTruthful(batch, keeps, unstaged)
  {
    forall envs, left, history | |history| > 0 && Admits(keeps, unstaged, envs, left)
      ensures var result := WriteBack(batch, envs, left, history);
        Truthful(batch, |history| - 1, result.outcomes, result.history)
    {
      if keeps && unstaged {
        WriteBackIsComplete(batch, envs, left, history);
        NothingIsHeld(batch, |history| - 1, WriteBack(batch, envs, left, history));
      } else {
        RetryIsTruthful(batch, envs, 0, |history| - 1, left, history, map[], map[], Unknown);
      }
    }
  }

  lemma NothingIsHeld(batch: seq<Work>, from: nat, result: Result)
    requires AsksForNothing(batch) && from < |result.history|
    ensures Truthful(batch, from, result.outcomes, result.history)
  {
    forall i | 0 <= i < |batch| ensures HeldSince(result.history, from, batch[i]) {
      assert Holds(result.history[from], batch[i]);
    }
  }
}
