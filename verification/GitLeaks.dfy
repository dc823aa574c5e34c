/**
 A failed commit that another request commits along is the only way a push can differ from writing
 the requests back one after another.
 */
module GitLeaks {
  import opened Common
  import opened Overrides
  import opened GitModel
  import opened GitLeftovers
  import opened GitTruth
  import opened GitRefinement

  /** The same stop predicates answer true, and the same commits fail in the same way. */
  predicate SameTroubles(env: Attempt, other: Attempt) {
    other.superseded == env.superseded && other.faults == env.faults
  }

  /** With these stops and failures every attempt on every branch pushes what one-by-one write-backs would. */
  ghost predicate AlwaysOneByOne(batch: seq<Work>, outcomes: Outcomes, env: Attempt) {
    forall left, history, errors, other :: |history| > 0 && SameTroubles(env, other) && CleanStart(left, other) ==>
      OneByOne(batch, left, history, outcomes, errors, other)
  }

  predicate EveryoneAsks(batch: seq<Work>) {
    forall i :: 0 <= i < |batch| && batch[i].Write? ==> batch[i].params != []
  }

  /** Files, and once staged the index too, show this entry. */
  predicate Dirty(l: Local, file: Path, name: string, entry: Option<Param>, staged: bool) {
    Entry(l.worktree, file, name) == entry && (staged ==> Entry(l.index, file, name) == entry)
  }

  lemma StageKeepsDirt(st: Staging, work: Work, i: nat, env: Attempt, file: Path, name: string, entry: Option<Param>,
        staged: bool)
    requires Dirty(st.local, file, name, entry, staged) && !Sets(work, file, name)
    ensures Dirty(Stage(st, work, i, env).local, file, name, entry, staged)
  {
    if work.Write? {
      EntryOfContent(st.local.worktree, work.file, work.params, file, name);
    }
  }

  lemma {:induction false} StagingKeepsDirt(st: Staging, batch: seq<Work>, active: seq<nat>, env: Attempt, file: Path,
      name: string, entry: Option<Param>, staged: bool)
    requires Within(batch, active) && Dirty(st.local, file, name, entry, staged)
    requires forall k :: 0 <= k < |active| ==> !Sets(batch[active[k]], file, name)
    ensures Dirty(StageAll(st, batch, active, env).local, file, name, entry, staged)
    decreases |active|
  {
    if active != [] {
      StageKeepsDirt(st, batch[active[0]], active[0], env, file, name, entry, staged);
      StagingKeepsDirt(Stage(st, batch[active[0]], active[0], env), batch, active[1..], env, file, name, entry, staged);
    }
  }

  lemma UnseenChanges(tree: Tree, file: Path, params: seq<Param>, name: string)
    requires Consistent(params) && name in Names(params) && Entry(tree, file, name) == None
    ensures Changes(tree, file, params)
    ensures Last(params, name).Some?
  {
    assert !Changes(tree, file, params) ==> tree[file := Content(tree, file, params)] == tree;
    hide Changes;
    EntryOfContent(tree, file, params, file, name);
    LastIn(params, name);
  }

  /** A commit that fails after writing leaves its parameter in the files, and in the index once staged. */
  lemma FailureDirties(st: Staging, work: Work, i: nat, env: Attempt, name: string)
    requires work.Write? && Consistent(work.params) && name in Names(work.params)
    requires i !in env.superseded && i in env.faults && !env.faults[i].Untouched?
    requires Entry(st.local.worktree, work.file, name) == None
    ensures var st' := Stage(st, work, i, env);
      && Dirty(st'.local, work.file, name, Last(work.params, name), env.faults[i].Staged?)
      && st'.outcomes == st.outcomes && st'.committed == st.committed
      && i in st'.errors && st'.errors[i] == env.faults[i]
  {
    UnseenChanges(st.local.worktree, work.file, work.params, name);
    EntryOfContent(st.local.worktree, work.file, work.params, work.file, name);
  }

  /** A later commit to that file, or to any file once staged, carries it into the branch's next tree. */
  lemma CommitCarries(st: Staging, work: Work, i: nat, env: Attempt, own: string, file: Path, name: string,
      entry: Option<Param>, staged: bool)
    requires work.Write? && Consistent(work.params) && own in Names(work.params) && i !in env.superseded
      && i !in env.faults
    requires Entry(st.local.worktree, work.file, own) == None
    requires Dirty(st.local, file, name, entry, staged) && !Sets(work, file, name) && (staged || work.file == file)
    ensures var st' := Stage(st, work, i, env);
      i in st'.committed && Reads(st'.local, file, name, entry)
  {
    UnseenChanges(st.local.worktree, work.file, work.params, own);
    EntryOfContent(st.local.worktree, work.file, work.params, file, name);
  }

  lemma {:induction false} StageSplit(st: Staging, batch: seq<Work>, active: seq<nat>, a: nat, env: Attempt)
    requires Within(batch, active) && a < |active|
    ensures Within(batch, active[..a]) && Within(batch, active[a + 1..])
    ensures StageAll(st, batch, active, env) ==
      StageAll(Stage(StageAll(st, batch, active[..a], env), batch[active[a]], active[a], env), batch, active[a + 1..],
        env)
    decreases a
  {
    if a > 0 {
      assert active[1..][..a - 1] == active[..a][1..] && active[1..][a..] == active[a + 1..]
        && active[1..][a - 1] == active[a];
      StageSplit(Stage(st, batch[active[0]], active[0], env), batch, active[1..], a - 1, env);
    }
  }

  /** Staging others changes nothing about this request: no outcome, the same error, and once committed it stays so. */
  lemma {:induction false} StagingLeavesAlone(st: Staging, batch: seq<Work>, active: seq<nat>, env: Attempt, i: nat)
    requires Within(batch, active) && i !in active
    ensures var end := StageAll(st, batch, active, env);
      && (i in end.outcomes <==> i in st.outcomes)
      && (i in st.errors ==> i in end.errors && end.errors[i] == st.errors[i])
      && (i in end.committed <==> i in st.committed)
    decreases |active|
  {
    if active != [] {
      assert active[0] in active && i !in active[1..];
      StageAdds(st, batch[active[0]], active[0], env);
      StagingLeavesAlone(Stage(st, batch[active[0]], active[0], env), batch, active[1..], env, i);
    }
  }

  lemma SetsAlone(batch: seq<Work>, i: nat, name: string, j: nat)
    requires WellSeparated(batch) && i < |batch| && j < |batch| && j != i && batch[i].Write?
      && name in Names(batch[i].params)
    ensures !Sets(batch[j], batch[i].file, name)
  {
  }

  /** Two positions of the batch in staging order, and a parameter each of them asks for. */
  datatype Leak = Leak(a: nat, b: nat, name: string, own: string)

  predicate LeakFits(batch: seq<Work>, active: seq<nat>, env: Attempt, k: Leak)
    requires Within(batch, active)
  {
    && k.a < k.b < |active| && LeaksAt(batch, active, env, k.a, k.b)
    && k.name in Names(batch[active[k.a]].params) && k.own in Names(batch[active[k.b]].params)
  }

  /** The request failed to commit and is neither settled nor committed. */
  predicate Open(st: Staging, i: nat, fault: Fault) {
    i !in st.outcomes && i !in st.committed && i in st.errors && st.errors[i] == fault
  }

  lemma UpToTheFailure(st: Staging, batch: seq<Work>, before: seq<nat>, env: Attempt, i: nat, j: nat, k: Leak)
    requires i < |batch| && j < |batch| && batch[i].Write? && batch[j].Write? && Around(batch, before, i, j, k)
    requires Consistent(batch[i].params) && k.name in Names(batch[i].params) && !Sets(batch[i], batch[j].file, k.own)
    requires i !in env.superseded && i in env.faults && !env.faults[i].Untouched?
    requires Reads(st.local, batch[i].file, k.name, None) && Reads(st.local, batch[j].file, k.own, None)
    requires i !in st.outcomes && i !in st.committed
    ensures var next := Stage(StageAll(st, batch, before, env), batch[i], i, env);
      && Dirty(next.local, batch[i].file, k.name, Last(batch[i].params, k.name), env.faults[i].Staged?)
      && Reads(next.local, batch[j].file, k.own, None) && Open(next, i, env.faults[i])
  {
    hide StageAll, Stage, Reads, Dirty;
    var now := StageAll(st, batch, before, env);
    StagingKeepsOthers(st, batch, before, env, batch[i].file, k.name, None);
    StagingKeepsOthers(st, batch, before, env, batch[j].file, k.own, None);
    StagingLeavesAlone(st, batch, before, env, i);
    WorktreeReads(now.local, batch[i].file, k.name, None);
    FailureDirties(now, batch[i], i, env, k.name);
    StageKeepsReads(now, batch[i], i, env, batch[j].file, k.own, None);
  }

  lemma UpToTheCommit(st: Staging, batch: seq<Work>, between: seq<nat>, env: Attempt, i: nat, j: nat, k: Leak,
      entry: Option<Param>, staged: bool, fault: Fault)
    requires i < |batch| && j < |batch| && i != j && batch[i].Write? && batch[j].Write?
      && Around(batch, between, i, j, k)
    requires Consistent(batch[j].params) && k.own in Names(batch[j].params) && !Sets(batch[j], batch[i].file, k.name)
    requires j !in env.superseded && j !in env.faults && (staged || batch[j].file == batch[i].file)
    requires Dirty(st.local, batch[i].file, k.name, entry, staged) && Reads(st.local, batch[j].file, k.own, None)
    requires Open(st, i, fault)
    ensures var next := Stage(StageAll(st, batch, between, env), batch[j], j, env);
      Reads(next.local, batch[i].file, k.name, entry) && j in next.committed && Open(next, i, fault)
  {
    hide StageAll, Stage, Reads, Dirty;
    var now := StageAll(st, batch, between, env);
    StagingKeepsDirt(st, batch, between, env, batch[i].file, k.name, entry, staged);
    StagingKeepsOthers(st, batch, between, env, batch[j].file, k.own, None);
    StagingLeavesAlone(st, batch, between, env, i);
    WorktreeReads(now.local, batch[j].file, k.own, None);
    CommitCarries(now, batch[j], j, env, k.own, batch[i].file, k.name, entry, staged);
    StageAdds(now, batch[j], j, env);
  }

  lemma PastTheCommit(st: Staging, batch: seq<Work>, after: seq<nat>, env: Attempt, i: nat, j: nat, k: Leak,
        entry: Option<Param>, fault: Fault)
    requires i < |batch| && j < |batch| && batch[i].Write? && batch[j].Write? && Around(batch, after, i, j, k)
    requires Reads(st.local, batch[i].file, k.name, entry) && j in st.committed && Open(st, i, fault)
    ensures var end := StageAll(st, batch, after, env);
      Entry(end.local.head, batch[i].file, k.name) == entry && j in end.committed && Open(end, i, fault)
  {
    hide StageAll, Reads;
    StagingKeepsOthers(st, batch, after, env, batch[i].file, k.name, entry);
    StagingLeavesAlone(st, batch, after, env, i);
    StagingLeavesAlone(st, batch, after, env, j);
    HeadReads(StageAll(st, batch, after, env).local, batch[i].file, k.name, entry);
  }

  /** Staged from a tree that shows neither request, the failed one ends up in the commit of the other. */
  lemma LeakReachesHead(st: Staging, batch: seq<Work>, active: seq<nat>, env: Attempt, k: Leak)
    requires Within(batch, active) && Ascending(active) && WellSeparated(batch) && LeakFits(batch, active, env, k)
    requires Reads(st.local, batch[active[k.a]].file, k.name, None)
      && Reads(st.local, batch[active[k.b]].file, k.own, None)
    requires active[k.a] !in st.outcomes && active[k.a] !in st.committed
    ensures var end, i := StageAll(st, batch, active, env), active[k.a];
      && Entry(end.local.head, batch[i].file, k.name) == Last(batch[i].params, k.name)
      && active[k.b] in end.committed && Open(end, i, env.faults[i])
  {
    var i, j, rest := active[k.a], active[k.b], active[k.a + 1..];
    var between, after := rest[..k.b - k.a - 1], rest[k.b - k.a..];
    Others(batch, active, k);
    BothConsistent(batch, i, j);
    StageSplit(st, batch, active, k.a, env);
    var failed := Stage(StageAll(st, batch, active[..k.a], env), batch[i], i, env);
    StageSplit(failed, batch, rest, k.b - k.a - 1, env);
    var carried := Stage(StageAll(failed, batch, between, env), batch[j], j, env);
    assert StageAll(st, batch, active, env) == StageAll(carried, batch, after, env);
    var entry, fault := Last(batch[i].params, k.name), env.faults[i];
    hide StageAll, Stage, Reads, Dirty, Ascending, WellSeparated, Last, Around, Open, Entry, Consistent, Sets, Names;
    UpToTheFailure(st, batch, active[..k.a], env, i, j, k);
    UpToTheCommit(failed, batch, between, env, i, j, k, entry, fault.Staged?, fault);
    PastTheCommit(carried, batch, after, env, i, j, k, entry, fault);
  }

  lemma BothConsistent(batch: seq<Work>, i: nat, j: nat)
    requires WellSeparated(batch) && i < |batch| && j < |batch| && batch[i].Write? && batch[j].Write?
    ensures Consistent(batch[i].params) && Consistent(batch[j].params)
  {
  }

  lemma WorktreeReads(l: Local, file: Path, name: string, entry: Option<Param>)
    requires Reads(l, file, name, entry)
    ensures Entry(l.worktree, file, name) == entry
  {
  }

  lemma HeadReads(l: Local, file: Path, name: string, entry: Option<Param>)
    requires Reads(l, file, name, entry)
    ensures Entry(l.head, file, name) == entry
  {
  }

  /**
   In a well-separated batch the requests around a leak set neither of its parameters, and are
   neither of its requests.
   */
  lemma Others(batch: seq<Work>, active: seq<nat>, k: Leak)
    requires Within(batch, active) && Ascending(active) && WellSeparated(batch) && k.a < k.b < |active|
    requires batch[active[k.a]].Write? && batch[active[k.b]].Write?
    requires k.name in Names(batch[active[k.a]].params) && k.own in Names(batch[active[k.b]].params)
    ensures var i, j := active[k.a], active[k.b];
      var rest := active[k.a + 1..];
      && i != j && !Sets(batch[j], batch[i].file, k.name) && !Sets(batch[i], batch[j].file, k.own)
      && Around(batch, active[..k.a], i, j, k) && Around(batch, rest[..k.b - k.a - 1], i, j, k)
      && Around(batch, rest[k.b - k.a..], i, j, k) && rest[k.b - k.a - 1] == j
  {
    var i, j, rest := active[k.a], active[k.b], active[k.a + 1..];
    forall x | 0 <= x < |active| && x != k.a && x != k.b
      ensures active[x] != i && active[x] != j
      ensures !Sets(batch[active[x]], batch[i].file, k.name) && !Sets(batch[active[x]], batch[j].file, k.own)
    {
      assert active[x] < active[k.a] || active[k.a] < active[x];
      assert active[x] < active[k.b] || active[k.b] < active[x];
      SetsAlone(batch, i, k.name, active[x]);
      SetsAlone(batch, j, k.own, active[x]);
    }
    SetsAlone(batch, i, k.name, j);
    SetsAlone(batch, j, k.own, i);
    assert forall x :: 0 <= x < |rest| ==> rest[x] == active[k.a + 1 + x];
    var after := rest[k.b - k.a..];
    assert forall x :: 0 <= x < |after| ==> after[x] == active[k.b + 1 + x];
  }

  predicate Around(batch: seq<Work>, part: seq<nat>, i: nat, j: nat, k: Leak)
    requires i < |batch| && j < |batch| && batch[i].Write? && batch[j].Write?
  {
    && Within(batch, part) && i !in part && j !in part
    && forall x :: 0 <= x < |part| ==>
         !Sets(batch[part[x]], batch[i].file, k.name) && !Sets(batch[part[x]], batch[j].file, k.own)
  }

  /** One-by-one write-backs never show a parameter only a failing request asks for. */
  lemma {:induction false} UpdatesKeepOthers(tip: Tree, batch: seq<Work>, active: seq<nat>, env: Attempt, file: Path,
        name: string)
    requires Within(batch, active)
    requires forall k :: 0 <= k < |active| && Writes(batch, active[k], env) ==> !Sets(batch[active[k]], file, name)
    ensures Entry(UpdateEach(tip, batch, active, env), file, name) == Entry(tip, file, name)
    decreases |active|
  {
    if active != [] {
      var i := active[0];
      if Writes(batch, i, env) { EntryOfContent(tip, batch[i].file, batch[i].params, file, name); }
      UpdatesKeepOthers(if Writes(batch, i, env) then UpdateAlone(tip, batch[i].file, batch[i].params) else tip,
                        batch, active[1..], env, file, name);
    }
  }

  lemma FindLeak(batch: seq<Work>, active: seq<nat>, env: Attempt) returns (k: Leak)
    requires Within(batch, active) && EveryoneAsks(batch) && Leaks(batch, active, env)
    ensures LeakFits(batch, active, env, k)
  {
    var a, b :| 0 <= a < b < |active| && LeaksAt(batch, active, env, a, b);
    var p, q := batch[active[a]].params[0], batch[active[b]].params[0];
    assert p in batch[active[a]].params && q in batch[active[b]].params;
    k := Leak(a, b, p.name, q.name);
  }

  /** An attempt with these stops and failures in which nothing else goes wrong. */
  function Plain(env: Attempt): Attempt {
    Attempt([], None, false, env.superseded, env.faults, [], Accepted, Proceed)
  }

  /**
   The leak in an otherwise smooth attempt on an empty branch: pushed, and its request left open with
   its commit error.
   */
  lemma LeakIsPushed(batch: seq<Work>, outcomes: Outcomes, errors: Errors, env: Attempt, k: Leak)
    requires WellSeparated(batch) && LeakFits(batch, Unresolved(|batch|, outcomes), env, k)
    ensures var r := RunAttempt(batch, map[], [map[]], outcomes, errors, Plain(env));
      var i := Unresolved(|batch|, outcomes)[k.a];
      && r.error.None? && r.committed != [] && |r.history| == 2
      && Entry(Tip(r.history), batch[i].file, k.name).Some?
      && i !in r.outcomes && i !in r.committed && i in r.errors && r.errors[i] == env.faults[i]
  {
    var active, plain := Unresolved(|batch|, outcomes), Plain(env);
    var empty: seq<Tree> := [map[]];
    assert empty + plain.before == empty;
    var st := Cloned(CloneOf(map[]), outcomes, errors);
    var i := active[k.a];
    assert i !in outcomes;
    LeakReachesHead(st, batch, active, plain, k);
    LastIn(batch[i].params, k.name);
    var end := StageAll(st, batch, active, plain);
    assert RunAttempt(batch, map[], empty, outcomes, errors, plain) == Publish(empty, end, plain);
    hide RunAttempt, StageAll, Unresolved, LeakFits;
    assert Publish(empty, end, plain).history == empty + [end.local.head];
  }

  /**
   For a well-separated batch in which everyone asks for something, a push always equals the requests
   one after another exactly when no failed commit is committed along by a later request.
   */
  lemma OneByOneExactlyUnlessLeaking(batch: seq<Work>, outcomes: Outcomes, env: Attempt)
    requires WellSeparated(batch) && EveryoneAsks(batch)
    ensures AlwaysOneByOne(batch, outcomes, env) <==> !Leaks(batch, Unresolved(|batch|, outcomes), env)
  {
    var active := Unresolved(|batch|, outcomes);
    if Leaks(batch, active, env) {
      var k := FindLeak(batch, active, env);
      LeakIsPushed(batch, outcomes, map[], env, k);
      LeakDiffers(batch, outcomes, env, k);
    } else {
      forall left, history, errors, other | |history| > 0 && SameTroubles(env, other) && CleanStart(left, other)
        ensures OneByOne(batch, left, history, outcomes, errors, other)
      {
        SameLeaks(batch, active, env, other);
        PushEqualsOneByOne(batch, left, history, outcomes, errors, other);
      }
    }
  }

  lemma SameLeaks(batch: seq<Work>, active: seq<nat>, env: Attempt, other: Attempt)
    requires Within(batch, active) && SameTroubles(env, other)
    ensures Leaks(batch, active, other) ==> Leaks(batch, active, env)
  {
    if Leaks(batch, active, other) {
      var j, k :| 0 <= j < k < |active| && LeaksAt(batch, active, other, j, k);
      assert LeaksAt(batch, active, env, j, k);
    }
  }

  lemma LeakDiffers(batch: seq<Work>, outcomes: Outcomes, env: Attempt, k: Leak)
    requires WellSeparated(batch) && LeakFits(batch, Unresolved(|batch|, outcomes), env, k)
    ensures !AlwaysOneByOne(batch, outcomes, env)
  {
    var active, plain, empty: seq<Tree> := Unresolved(|batch|, outcomes), Plain(env), [map[]];
    var i := active[k.a];
    LeakIsPushed(batch, outcomes, map[], env, k);
    UpdatesMissTheLeak(batch, active, env, k);
    assert empty + plain.before == empty;
    var r := RunAttempt(batch, map[], empty, outcomes, map[], plain);
    hide RunAttempt, UpdateEach, Unresolved, LeakFits, WellSeparated, Entry;
    assert Tip(r.history) != UpdateEach(map[], batch, active, plain);
    assert r.history != empty + [UpdateEach(map[], batch, active, plain)];
    assert !OneByOne(batch, map[], empty, outcomes, map[], plain);
    assert SameTroubles(env, plain) && CleanStart(map[], plain);
  }

  lemma UpdatesMissTheLeak(batch: seq<Work>, active: seq<nat>, env: Attempt, k: Leak)
    requires Within(batch, active) && WellSeparated(batch) && LeakFits(batch, active, env, k)
    ensures Entry(UpdateEach(map[], batch, active, Plain(env)), batch[active[k.a]].file, k.name) == None
  {
    var i := active[k.a];
    forall x | 0 <= x < |active| && Writes(batch, active[x], Plain(env))
      ensures !Sets(batch[active[x]], batch[i].file, k.name)
    {
      SetsAlone(batch, i, k.name, active[x]);
    }
    UpdatesKeepOthers(map[], batch, active, Plain(env), batch[i].file, k.name);
  }

  /** A leaked request is live on the branch, and with the budget spent it is reported as failed. */
  lemma LeakedFailureTravels(batch: seq<Work>, env: Attempt, k: Leak)
    requires WellSeparated(batch) && LeakFits(batch, Unresolved(|batch|, map[]), env, k)
    ensures var result, i := WriteBack(batch, [Plain(env)], map[], [map[]]), Unresolved(|batch|, map[])[k.a];
      && |result.history| == 2 && Entry(Tip(result.history), batch[i].file, k.name).Some?
      && i in result.outcomes && result.outcomes[i] == Exhausted(1, Commit(env.faults[i]))
  {
    LeakIsPushed(batch, map[], map[], env, k);
    var r, i := RunAttempt(batch, map[], [map[]], map[], map[], Plain(env)), Unresolved(|batch|, map[])[k.a];
    hide RunAttempt, LeakFits, Decide, WellSeparated, Entry;
    OpenAfterOne(batch, Plain(env), r, i);
  }

  /** With a budget of one, a request the attempt left open reports its commit error. */
  lemma OpenAfterOne(batch: seq<Work>, env: Attempt, r: Attempted, i: nat)
    requires r.history != [] && r.error.None? && i < |batch| && i !in r.outcomes && i !in r.committed && i in r.errors
    ensures var result := Decide(batch, [env], 0, r, Unknown);
      result.history == r.history && i in result.outcomes && result.outcomes[i] == Exhausted(1, Commit(r.errors[i]))
  {
    var settled := Settled(|batch|, r);
    assert i !in settled && i in Unresolved(|batch|, settled);
    hide Settled, Unresolved;
    assert Decide(batch, [env], 0, r, Unknown) == Finish(|batch|, settled, r.errors, Unknown, r.history, 1, 1, false);
  }
}
