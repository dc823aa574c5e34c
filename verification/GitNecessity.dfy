/** Batches that are not well separated can be told of a success the branch never showed. */
module GitNecessity {
  import opened Common
  import opened Overrides
  import opened GitModel
  import opened GitLeftovers
  import opened GitTruth

  function All(n: nat): seq<nat> {
    seq(n, k requires 0 <= k => k)
  }

  lemma UnresolvedAll(n: nat)
    ensures Unresolved(n, map[]) == All(n)
  {
  }

  lemma {:induction false} StageConcat(st: Staging, batch: seq<Work>, a: seq<nat>, b: seq<nat>, env: Attempt)
    requires Within(batch, a) && Within(batch, b)
    ensures Within(batch, a + b)
    ensures StageAll(st, batch, a + b, env) == StageAll(StageAll(st, batch, a, env), batch, b, env)
    decreases |a|
  {
    if a == [] {
      assert a + b == b;
    } else {
      RestOfConcat(a, b);
      StageConcat(Stage(st, batch[a[0]], a[0], env), batch, a[1..], b, env);
    }
  }

  /** Equal but for what became of superseded requests. */
  predicate Alike(s: Staging, t: Staging, env: Attempt) {
    && s.local == t.local && s.errors == t.errors && s.committed == t.committed
    && (forall i :: i in s.outcomes && i !in env.superseded ==> i in t.outcomes && t.outcomes[i] == s.outcomes[i])
    && (forall i :: i in t.outcomes && i !in env.superseded ==> i in s.outcomes)
  }

  lemma {:induction false} SupersededAreIdle(s: Staging, t: Staging, batch: seq<Work>, active: seq<nat>, env: Attempt)
    requires Within(batch, active) && Alike(s, t, env)
    requires forall k :: 0 <= k < |active| ==> active[k] in env.superseded
    ensures Alike(StageAll(s, batch, active, env), t, env)
    decreases |active|
  {
    if active != [] {
      SupersededAreIdle(Stage(s, batch[active[0]], active[0], env), t, batch, active[1..], env);
    }
  }

  lemma StageAlike(s: Staging, t: Staging, work: Work, i: nat, env: Attempt)
    requires Alike(s, t, env)
    ensures Alike(Stage(s, work, i, env), Stage(t, work, i, env), env)
  {
  }

  /** Up to position m, only i still stands. */
  lemma OneStands(st: Staging, batch: seq<Work>, i: nat, m: nat, env: Attempt)
    requires i < m <= |batch|
    requires forall k :: 0 <= k < m ==> k == i || k in env.superseded
    ensures Within(batch, All(m)) && Alike(StageAll(st, batch, All(m), env), Stage(st, batch[i], i, env), env)
  {
    var before, at, after := All(i), [i], All(m)[i + 1..];
    assert All(m) == before + at + after;
    StageConcat(st, batch, before + at, after, env);
    StageConcat(st, batch, before, at, env);
    var s := StageAll(st, batch, before, env);
    SupersededAreIdle(st, st, batch, before, env);
    StageAlike(s, st, batch[i], i, env);
    assert at[1..] == [];
    SupersededAreIdle(Stage(s, batch[i], i, env), Stage(st, batch[i], i, env), batch, after, env);
  }

  lemma TwoStand(st: Staging, batch: seq<Work>, i: nat, j: nat, env: Attempt)
    requires i < j < |batch|
    requires forall k :: 0 <= k < |batch| ==> k == i || k == j || k in env.superseded
    ensures Within(batch, All(|batch|))
    ensures Alike(StageAll(st, batch, All(|batch|), env), Stage(Stage(st, batch[i], i, env), batch[j], j, env), env)
  {
    var before, at, after := All(j), [j], All(|batch|)[j + 1..];
    assert All(|batch|) == before + at + after;
    StageConcat(st, batch, before + at, after, env);
    StageConcat(st, batch, before, at, env);
    OneStands(st, batch, i, j, env);
    var s, t := StageAll(st, batch, before, env), Stage(st, batch[i], i, env);
    StageAlike(s, t, batch[j], j, env);
    assert at[1..] == [];
    SupersededAreIdle(Stage(s, batch[j], j, env), Stage(t, batch[j], j, env), batch, after, env);
  }

  /** With a budget of one attempt, what the attempt settles is what is reported. */
  lemma OneAttempt(batch: seq<Work>, env: Attempt, left: Tree, history: seq<Tree>)
    requires batch != [] && history != []
    ensures var r := RunAttempt(batch, left, history, map[], map[], env);
      var result := WriteBack(batch, [env], left, history);
      && result.history == r.history
      && forall i :: i in Settled(|batch|, r) ==> i in result.outcomes && result.outcomes[i] == Settled(|batch|, r)[i]
  {
    UnresolvedAll(|batch|);
    var r := RunAttempt(batch, left, history, map[], map[], env);
    hide RunAttempt;
    OneDecision(batch, env, r);
  }

  lemma OneDecision(batch: seq<Work>, env: Attempt, r: Attempted)
    requires r.history != []
    ensures var result := Decide(batch, [env], 0, r, Unknown);
      && result.history == r.history
      && forall i :: i in Settled(|batch|, r) ==> i in result.outcomes && result.outcomes[i] == Settled(|batch|, r)[i]
  {
  }

  function Below(n: nat): (ids: set<nat>)
    ensures forall k: nat :: k in ids <==> k < n
  {
    if n == 0 then {} else Below(n - 1) + {n - 1}
  }

  /** An attempt of our choosing: these requests stand, nothing else goes wrong before the push. */
  function Scenario(n: nat, standing: set<nat>, push: PushAnswer): Attempt {
    Attempt([], None, false, Below(n) - standing, map[], [], push, Proceed)
  }

  lemma PublishReports(n: nat, cloned: seq<Tree>, st: Staging, end: Staging, env: Attempt, i: nat)
    requires Alike(st, end, env) && i !in env.superseded && env.during == []
    requires (i in end.outcomes && end.outcomes[i] == Done)
      || (i in end.committed && i !in end.outcomes && env.push.Accepted?)
    ensures var r := Publish(cloned, st, env);
      && r.history == (if end.committed == [] then cloned else AfterPush(cloned, [], end.local.head, env.push))
      && i in Settled(n, r) && Settled(n, r)[i] == Done
  {
  }

  /** What a single attempt on a branch with one commit reports, given what staging came to. */
  lemma Reported(batch: seq<Work>, env: Attempt, left: Tree, base: Tree, end: Staging, i: nat)
    requires i < |batch| && i !in env.superseded && env.before == [] && env.clone.None? && env.during == []
    requires Within(batch, All(|batch|))
    requires Alike(StageAll(Cloned(ResetTo(base, left, env.keeps), map[], map[]), batch, All(|batch|), env), end, env)
    requires (i in end.outcomes && end.outcomes[i] == Done)
      || (i in end.committed && i !in end.outcomes && env.push.Accepted?)
    ensures var result := WriteBack(batch, [env], left, [base]);
      && i in result.outcomes && result.outcomes[i] == Done
      && result.history == if end.committed == [] then [base] else AfterPush([base], [], end.local.head, env.push)
  {
    var st := StageAll(Cloned(ResetTo(base, left, env.keeps), map[], map[]), batch, All(|batch|), env);
    assert [base] + env.before == [base];
    UnresolvedAll(|batch|);
    OneAttempt(batch, env, left, [base]);
    PublishReports(|batch|, [base], st, end, env, i);
    assert RunAttempt(batch, left, [base], map[], map[], env) == Publish([base], st, env);
    hide RunAttempt, StageAll, Publish, Settled, WriteBack, Alike, All;
    assert i in Settled(|batch|, RunAttempt(batch, left, [base], map[], map[], env));
  }

  /** A report of success for a request the branch never showed. */
  lemma FalseReport(batch: seq<Work>, keeps: bool, unstaged: bool, env: Attempt, left: Tree, base: Tree, i: nat)
    requires i < |batch| && Admits(keeps, unstaged, [env], left)
    requires var result := WriteBack(batch, [env], left, [base]);
      && i in result.outcomes && result.outcomes[i] == Done
      && forall v :: 0 <= v < |result.history| ==> !Holds(result.history[v], batch[i])
    ensures !AlwaysTruthful(batch, keeps, unstaged)
  {
    var result := WriteBack(batch, [env], left, [base]);
    assert !Truthful(batch, |[base]| - 1, result.outcomes, result.history);
  }

  /** Staging that settles a request the base does not show, and no push shows either. */
  lemma Misreported(batch: seq<Work>, keeps: bool, unstaged: bool, env: Attempt, left: Tree, base: Tree, end: Staging,
        i: nat)
    requires i < |batch| && i !in env.superseded && env.before == [] && env.clone.None? && env.during == []
    requires Admits(keeps, unstaged, [env], left) && Within(batch, All(|batch|))
    requires Alike(StageAll(Cloned(ResetTo(base, left, env.keeps), map[], map[]), batch, All(|batch|), env), end, env)
    requires (i in end.outcomes && end.outcomes[i] == Done)
      || (i in end.committed && i !in end.outcomes && env.push.Accepted?)
    requires !Holds(base, batch[i]) && (end.committed == [] || env.push.Refused? || !Holds(end.local.head, batch[i]))
    ensures !AlwaysTruthful(batch, keeps, unstaged)
  {
    hide Alike, StageAll, WriteBack, Holds, AlwaysTruthful, ResetTo, Admits, All, Within;
    Reported(batch, env, left, base, end, i);
    FalseReport(batch, keeps, unstaged, env, left, base, i);
  }

  /** A file written and never staged survives the reset; the request finds it there and is reported done. */
  lemma FindingTheLeftover(batch: seq<Work>, i: nat)
    requires i < |batch| && batch[i].Write? && Consistent(batch[i].params) && batch[i].params != []
    ensures !AlwaysTruthful(batch, true, true)
  {
    var work := batch[i];
    var left: Tree := map[work.file := work.params];
    var env := Scenario(|batch|, {i}, Accepted).(keeps := true);
    assert left + map[] == left;
    var start := Cloned(Local(left, map[], map[]), map[], map[]);
    assert ResetTo(map[], left, true) == start.local;
    MergeOfItself(work.params);
    StageFinds(start, work.file, work.params, i, env);
    OneStands(start, batch, i, |batch|, env);
    var end := Stage(start, work, i, env);
    hide Stage, StageAll, Alike;
    assert work.params[0] in work.params && Entry(map[], work.file, work.params[0].name) == None;
    Misreported(batch, true, true, env, left, map[], end, i);
  }

  lemma MergeOfItself(params: seq<Param>)
    requires Consistent(params)
    ensures Merge(params, params) == params
  {
    forall p | p in params ensures Lookup(params, p.name) == Some(p) {
      assert p.name in Names(params);
      OnlyOne(params, p.name);
      LastIs(params, p);
    }
    MergeOfHeld(params, params);
  }

  /** No tree with the file just as asked for holds a request that asks for two values of one parameter. */
  lemma CannotHold(work: Work)
    requires work.Write? && !Consistent(work.params)
    ensures !Holds(map[], work) && !Holds(map[work.file := work.params], work)
  {
    var p, q :| p in work.params && q in work.params && p.name == q.name && p != q;
    var head: Tree := map[work.file := work.params];
    assert Entry(head, work.file, p.name) == Entry(head, work.file, q.name);
  }

  lemma TakenVerbatim(work: Work, i: nat, env: Attempt)
    requires work.Write? && work.params != [] && i !in env.superseded && i !in env.faults
    ensures var end := Stage(Cloned(CloneOf(map[]), map[], map[]), work, i, env);
      end.committed == [i] && end.outcomes == map[] && end.local.head == map[work.file := work.params]
  {
    var head: Tree := map[work.file := work.params];
    assert Stage(Cloned(CloneOf(map[]), map[], map[]), work, i, env).local.head == head;
  }

  /** A request that asks for two values of one parameter. */
  lemma ContradictingItself(batch: seq<Work>, keeps: bool, unstaged: bool, i: nat)
    requires i < |batch| && batch[i].Write? && !Consistent(batch[i].params)
    ensures !AlwaysTruthful(batch, keeps, unstaged)
  {
    hide Stage, StageAll, AlwaysTruthful, Holds, Alike;
    var env := Scenario(|batch|, {i}, Accepted);
    var start := Cloned(CloneOf(map[]), map[], map[]);
    OneStands(start, batch, i, |batch|, env);
    CannotHold(batch[i]);
    TakenVerbatim(batch[i], i, env);
    Misreported(batch, keeps, unstaged, env, map[], map[], Stage(start, batch[i], i, env), i);
  }

  /** Two requests that want different values of one parameter. */
  lemma Overwriting(batch: seq<Work>, keeps: bool, unstaged: bool, i: nat, j: nat, p: Param, q: Param)
    requires i < j < |batch| && batch[i].Write? && batch[j].Write? && batch[i].file == batch[j].file
    requires Consistent(batch[i].params) && Consistent(batch[j].params)
    requires p in batch[i].params && q in batch[j].params && p.name == q.name && p != q
    ensures !AlwaysTruthful(batch, keeps, unstaged)
  {
    var env := Scenario(|batch|, {i, j}, Accepted);
    TwoStand(Cloned(CloneOf(map[]), map[], map[]), batch, i, j, env);
    var end := BothCommit(batch[i].file, batch[i].params, batch[j].params, i, j, env, p, q);
    hide Stage, Alike, StageAll;
    Misreported(batch, keeps, unstaged, env, map[], map[], end, i);
  }

  lemma StageCommits(st: Staging, file: Path, params: seq<Param>, i: nat, env: Attempt)
    requires i !in env.superseded && env.faults == map[] && Changes(st.local.worktree, file, params)
    ensures Stage(st, Write(file, params), i, env) ==
      st.(local := CommitOn(st.local, file, params), errors := st.errors - {i}, committed := st.committed + [i])
  {
  }

  lemma StageFinds(st: Staging, file: Path, params: seq<Param>, i: nat, env: Attempt)
    requires i !in env.superseded && env.faults == map[] && !Changes(st.local.worktree, file, params)
    ensures Stage(st, Write(file, params), i, env) == st.(outcomes := st.outcomes[i := Done])
  {
  }

  lemma MergeMoves(a: seq<Param>, b: seq<Param>, p: Param, q: Param)
    requires Consistent(a) && Consistent(b) && p in a && q in b && p.name == q.name && p != q
    ensures Merge(a, b) != a && Lookup(Merge(a, b), p.name) == Some(q)
  {
    OnlyOne(a, p.name);
    LastIs(a, p);
    LastIs(b, q);
    MergeLookup(a, b, p.name);
  }

  lemma BothCommit(file: Path, a: seq<Param>, b: seq<Param>, i: nat, j: nat, env: Attempt, p: Param,
      q: Param) returns (end: Staging)
    requires i != j && i !in env.superseded && j !in env.superseded && env.faults == map[]
    requires Consistent(a) && Consistent(b) && p in a && q in b && p.name == q.name && p != q
    ensures end == Stage(Stage(Cloned(CloneOf(map[]), map[], map[]), Write(file, a), i, env), Write(file, b), j, env)
    ensures end.committed == [i, j] && end.outcomes == map[]
    ensures !Holds(map[], Write(file, a)) && !Holds(end.local.head, Write(file, a))
  {
    var start := Cloned(CloneOf(map[]), map[], map[]);
    StageCommits(start, file, a, i, env);
    var first := Stage(start, Write(file, a), i, env);
    assert first.local == CloneOf(map[file := a]);
    MergeMoves(a, b, p, q);
    StageCommits(first, file, b, j, env);
    end := Stage(first, Write(file, b), j, env);
    assert Entry(end.local.head, file, p.name) == Some(q);
  }

  lemma LastIs(params: seq<Param>, p: Param)
    requires Consistent(params) && p in params
    ensures Last(params, p.name) == Some(p)
  {
    LastIn(params, p.name);
  }

  function Flipped(params: seq<Param>, name: string): seq<Param> {
    seq(|params|, k requires 0 <= k < |params| =>
      if params[k].name == name then params[k].(forceString := !params[k].forceString) else params[k])
  }

  lemma FlippedLookup(params: seq<Param>, name: string, p: Param)
    requires Consistent(params) && p in params
    ensures Lookup(Flipped(params, name), p.name) ==
      Some(if p.name == name then p.(forceString := !p.forceString) else p)
  {
    OnlyOne(params, p.name);
    LastIs(params, p);
    FirstIs(Flipped(params, name), p.name, IndexOf(params, p.name));
  }

  /**
   Two requests that agree on a parameter: the second finds it in the first one's commit,
   is reported as done, and the push that would have published it is refused.
   */
  lemma Piggybacking(batch: seq<Work>, keeps: bool, unstaged: bool, i: nat, j: nat, name: string)
    requires i < j < |batch| && batch[i].Write? && batch[j].Write? && batch[i].file == batch[j].file
    requires Consistent(batch[i].params) && Consistent(batch[j].params)
    requires name in Names(batch[i].params) && name in Names(batch[j].params)
    requires forall p, q :: p in batch[i].params && q in batch[j].params && p.name == q.name ==> p == q
    ensures !AlwaysTruthful(batch, keeps, unstaged)
  {
    var push := Refused(GitError(false));
    var base: Tree := map[batch[i].file := Flipped(batch[j].params, name)];
    var env := Scenario(|batch|, {i, j}, push);
    TwoStand(Cloned(CloneOf(base), map[], map[]), batch, i, j, env);
    var end := SecondFollows(batch[i].file, batch[i].params, batch[j].params, i, j, env, name);
    Misreported(batch, keeps, unstaged, env, map[], base, end, j);
  }

  lemma SecondFollows(file: Path, a: seq<Param>, b: seq<Param>, i: nat, j: nat, env: Attempt, name: string)
      returns (end: Staging)
    requires i != j && i !in env.superseded && j !in env.superseded && env.faults == map[]
    requires Consistent(a) && Consistent(b) && name in Names(a) && name in Names(b)
    requires forall p, q :: p in a && q in b && p.name == q.name ==> p == q
    ensures var base: Tree := map[file := Flipped(b, name)];
      && end == Stage(Stage(Cloned(CloneOf(base), map[], map[]), Write(file, a), i, env), Write(file, b), j, env)
      && !Holds(base, Write(file, b))
    ensures end.outcomes == map[j := Done]
  {
    var e := Flipped(b, name);
    var base: Tree := map[file := e];
    var q :| q in b && q.name == name;
    FlippedLookup(b, name, q);
    LastIn(a, name);
    MergeLookup(e, a, name);
    var start := Cloned(CloneOf(base), map[], map[]);
    StageCommits(start, file, a, i, env);
    var first := Stage(start, Write(file, a), i, env);
    assert first.local.worktree[file] == Merge(e, a);
    SecondFindsItAll(a, b, name);
    StageFinds(first, file, b, j, env);
    end := Stage(first, Write(file, b), j, env);
    assert Entry(base, file, name) != Some(q);
  }

  lemma SecondFindsItAll(a: seq<Param>, b: seq<Param>, name: string)
    requires Consistent(a) && Consistent(b) && name in Names(a)
    requires forall p, q :: p in a && q in b && p.name == q.name ==> p == q
    ensures Merge(Merge(Flipped(b, name), a), b) == Merge(Flipped(b, name), a)
  {
    var e := Flipped(b, name);
    forall q | q in b ensures Lookup(Merge(e, a), q.name) == Some(q) {
      MergeLookup(e, a, q.name);
      LastIn(a, q.name);
      FlippedLookup(b, name, q);
    }
    MergeOfHeld(Merge(e, a), b);
  }

  /**
   Success reports are always true exactly for well-separated batches; and where resets keep
   untracked files and commits may fail before staging, only for batches that ask for nothing.
   */
  lemma TruthfulExactlyWhenSeparated(batch: seq<Work>, keeps: bool, unstaged: bool)
    ensures AlwaysTruthful(batch, keeps, unstaged)
      <==> WellSeparated(batch) && (keeps && unstaged ==> AsksForNothing(batch))
  {
    if WellSeparated(batch) && (keeps && unstaged ==> AsksForNothing(batch)) {
      SeparatedIsTruthful(batch, keeps, unstaged);
    } else if WellSeparated(batch) {
      var i :| 0 <= i < |batch| && batch[i].Write? && batch[i].params != [];
      FindingTheLeftover(batch, i);
    } else {
      EntangledIsUntruthful(batch, keeps, unstaged);
    }
  }

  lemma EntangledIsUntruthful(batch: seq<Work>, keeps: bool, unstaged: bool)
    requires !WellSeparated(batch)
    ensures !AlwaysTruthful(batch, keeps, unstaged)
  {
    if i :| 0 <= i < |batch| && batch[i].Write? && !Consistent(batch[i].params) {
      ContradictingItself(batch, keeps, unstaged, i);
    } else {
      var i, j :| 0 <= i < j < |batch| && batch[i].Write? && batch[j].Write? && batch[i].file == batch[j].file
                  && !(Names(batch[i].params) !! Names(batch[j].params));
      var name :| name in Names(batch[i].params) && name in Names(batch[j].params);
      if p, q :| p in batch[i].params && q in batch[j].params && p.name == q.name && p != q {
        Overwriting(batch, keeps, unstaged, i, j, p, q);
      } else {
        Piggybacking(batch, keeps, unstaged, i, j, name);
      }
    }
  }

  /** One attempt writes the file and fails; the next finds it, and reports a success the branch never shows. */
  lemma LeftoverIsReported(file: Path, params: seq<Param>, first: Attempt, second: Attempt, more: seq<Attempt>)
    requires Consistent(params) && params != []
    requires first == Attempt([], None, false, {}, map[0 := Written], [], Accepted, Proceed)
    requires second == Attempt([], None, true, {}, map[], [], Accepted, Proceed)
    ensures var result := WriteBack([Write(file, params)], [first, second] + more, map[], [map[]]);
      && 0 in result.outcomes && result.outcomes[0] == Done
      && result.history == [map[]] && !Holds(map[], Write(file, params))
  {
    var batch, envs, left: Tree := [Write(file, params)], [first, second] + more, map[file := params];
    assert params[0] in params && Entry(map[], file, params[0].name) == None;
    FirstLeaves(file, params, first);
    SecondFinds(file, params, second, map[0 := Written]);
    var empty: seq<Tree> := [map[]];
    assert empty + [] == empty;
    assert Unresolved(0, map[]) == [] && Unresolved(1, map[]) == [0];
    var r1 := Attempted(left, [map[]], map[], map[0 := Written], [], None);
    var r2 := Attempted(left, [map[]], map[0 := Done], map[0 := Written], [], None);
    assert RunAttempt(batch, map[], [map[]], map[], map[], first) == r1;
    assert RunAttempt(batch, left, [map[]], map[], map[0 := Written], second) == r2;
    assert Settled(1, r1) == map[] && Settled(1, r2) == map[0 := Done];
    hide RunAttempt, Settled, Finish;
    assert envs[0] == first && envs[1] == second;
    var end := Finish(1, map[0 := Done], map[0 := Written], Unknown, [map[]], 2, |envs|, false);
    assert Unresolved(1, map[0 := Done]) == [];
    assert Decide(batch, envs, 1, r2, Unknown) == end;
    assert Decide(batch, envs, 0, r1, Unknown) == end;
    DoneIsKept(map[0 := Done], map[0 := Written], 2, |envs|);
  }

  lemma DoneIsKept(outcomes: Outcomes, errors: Errors, made: nat, budget: nat)
    requires 0 in outcomes && outcomes[0] == Done
    ensures var result := Finish(1, outcomes, errors, Unknown, [map[]], made, budget, false);
      0 in result.outcomes && result.outcomes[0] == Done && result.history == [map[]]
  {
  }

  lemma FirstLeaves(file: Path, params: seq<Param>, first: Attempt)
    requires first == Attempt([], None, false, {}, map[0 := Written], [], Accepted, Proceed)
    ensures Untracked(Local(map[file := params], map[], map[])) == map[file := params]
    ensures StageAll(Cloned(CloneOf(map[]), map[], map[]), [Write(file, params)], [0], first)
         == Staging(Local(map[file := params], map[], map[]), map[], map[0 := Written], [])
  {
    assert [0][1..] == [];
  }

  lemma SecondFinds(file: Path, params: seq<Param>, second: Attempt, errors: Errors)
    requires Consistent(params) && second == Attempt([], None, true, {}, map[], [], Accepted, Proceed)
    ensures ResetTo(map[], map[file := params], true) == Local(map[file := params], map[], map[])
    ensures
      StageAll(Cloned(Local(map[file := params], map[], map[]), map[], errors), [Write(file, params)], [0], second)
         == Staging(Local(map[file := params], map[], map[]), map[0 := Done], errors, [])
  {
    var left: Tree := map[file := params];
    assert left + map[] == left;
    MergeOfItself(params);
    var start := Cloned(Local(left, map[], map[]), map[], errors);
    StageFinds(start, file, params, 0, second);
    assert [0][1..] == [];
  }
}
