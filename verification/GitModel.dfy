/**
 A git branch as the trees its tip has shown, and the batched write-back as functions of
 what the remote, the file system and the other tasks answered. Whatever those answers
 are, they arrive as parameters: a statement for every Attempt is a statement for every
 behaviour of the environment.
 */
module GitModel {
  import opened Common
  import opened Overrides

  type Path = string

  /** The override files of one commit. */
  type Tree = map<Path, seq<Param>>

  /** The local clone: what the files hold, what is staged for the next commit, and what the last commit holds. */
  datatype Local = Local(worktree: Tree, index: Tree, head: Tree)

  datatype GitError = GitError(permanent: bool)

  /** How a commit failed: before the file was written, before it was staged, or after. */
  datatype Fault = Untouched | Written | Staged

  /** What the remote made of a push, and what it told the client. */
  datatype PushAnswer = Accepted | Refused(error: GitError) | AcceptedUnheard(error: GitError)

  datatype Wait = Proceed | Cancelled | Draining

  /** Everything the environment decides during one attempt. Numbers are positions in the batch. */
  datatype Attempt = Attempt(
    before: seq<Tree>,        // commits by other writers up to the clone
    clone: Option<GitError>,
    keeps: bool,              // whether files the last clone wrote and never staged survive the reset
    superseded: set<nat>,     // requests whose stop predicate answers true
    faults: map<nat, Fault>,  // requests whose local commit fails
    during: seq<Tree>,        // commits by other writers between clone and push
    push: PushAnswer,
    wait: Wait)

  /** What one request asks for, once its annotations have been read. */
  datatype Work = Unsupported | Misconfigured | NoImages | Write(file: Path, params: seq<Param>)

  datatype Cause = Unknown | Git(error: GitError) | Commit(fault: Fault) | WaitCancelled

  datatype Outcome =
    | Done
    | Superseded
    | BadConfig
    | Permanent(error: GitError)
    | Exhausted(attempts: nat, cause: Cause)
    | StoppedEarly(cause: Cause)

  type Outcomes = map<nat, Outcome>
  type Errors = map<nat, Fault>

  function Tip(history: seq<Tree>): Tree
    requires history != []
  {
    history[|history| - 1]
  }

  function Entry(tree: Tree, file: Path, name: string): Option<Param> {
    if file in tree then Lookup(tree[file], name) else None
  }

  /** An absent file takes the new content as it is; an existing one is merged into. */
  function Content(tree: Tree, file: Path, params: seq<Param>): seq<Param> {
    if file in tree then Merge(tree[file], params) else params
  }

  predicate Changes(tree: Tree, file: Path, params: seq<Param>) {
    file !in tree || Content(tree, file, params) != tree[file]
  }

  function CloneOf(tip: Tree): Local {
    Local(tip, tip, tip)
  }

  /** The files the index does not know of. */
  function Untracked(l: Local): Tree {
    map file | file in l.worktree && file !in l.index :: l.worktree[file]
  }

  /** A hard reset to the tip over what an earlier attempt left untracked. */
  function ResetTo(tip: Tree, left: Tree, keeps: bool): Local {
    if keeps then Local(left + tip, tip, tip) else CloneOf(tip)
  }

  function CommitOn(l: Local, file: Path, params: seq<Param>): Local {
    var content := Content(l.worktree, file, params);
    Local(l.worktree[file := content], l.index[file := content], l.index[file := content])
  }

  function FailedCommit(l: Local, file: Path, params: seq<Param>, fault: Fault): Local {
    var content := Content(l.worktree, file, params);
    match fault
    case Untouched => l
    case Written => l.(worktree := l.worktree[file := content])
    case Staged => l.(worktree := l.worktree[file := content], index := l.index[file := content])
  }

  /** A push moves the tip only if nobody else moved it since the clone. */
  function AfterPush(history: seq<Tree>, during: seq<Tree>, head: Tree, answer: PushAnswer): seq<Tree> {
    if during == [] && !answer.Refused? then history + [head] else history + during
  }

  function PushError(during: seq<Tree>, answer: PushAnswer): Option<GitError> {
    match answer
    case Accepted => if during == [] then None else Some(GitError(false))
    case Refused(error) => Some(error)
    case AcceptedUnheard(error) => Some(error)
  }

  /** The state of an attempt while requests are being applied. */
  datatype Staging = Staging(local: Local, outcomes: Outcomes, errors: Errors, committed: seq<nat>)

  predicate CommitFails(st: Staging, work: Work, i: nat, env: Attempt)
    requires work.Write?
  {
    i in env.faults && (env.faults[i].Untouched? || Changes(st.local.worktree, work.file, work.params))
  }

  function Stage(st: Staging, work: Work, i: nat, env: Attempt): Staging {
    if i in env.superseded then st.(outcomes := st.outcomes[i := Superseded])
    else
      match work
      case Unsupported => st.(outcomes := st.outcomes[i := Done])
      case Misconfigured => st.(outcomes := st.outcomes[i := BadConfig])
      case NoImages => st.(outcomes := st.outcomes[i := Done])
      case Write(file, params) =>
        if CommitFails(st, work, i, env) then
          st.(local := FailedCommit(st.local, file, params, env.faults[i]), errors := st.errors[i := env.faults[i]])
        else if !Changes(st.local.worktree, file, params) then
          st.(outcomes := st.outcomes[i := Done])
        else
          st.(local := CommitOn(st.local, file, params), errors := st.errors - {i}, committed := st.committed + [i])
  }

  predicate Within(batch: seq<Work>, active: seq<nat>) {
    forall k :: 0 <= k < |active| ==> active[k] < |batch|
  }

  function StageAll(st: Staging, batch: seq<Work>, active: seq<nat>, env: Attempt): Staging
    requires Within(batch, active)
    decreases |active|
  {
    if active == [] then st
    else StageAll(Stage(st, batch[active[0]], active[0], env), batch, active[1..], env)
  }

  /** The positions below n without an outcome, in order. */
  function Unresolved(n: nat, outcomes: Outcomes): (active: seq<nat>)
    ensures forall k :: 0 <= k < |active| ==> active[k] < n && active[k] !in outcomes
    ensures forall j, k :: 0 <= j < k < |active| ==> active[j] < active[k]
    ensures forall i :: 0 <= i < n && i !in outcomes ==> i in active
  {
    if n == 0 then []
    else Unresolved(n - 1, outcomes) + if n - 1 in outcomes then [] else [n - 1]
  }

  /** A clone about to take the requests' commits. */
  function Cloned(l: Local, outcomes: Outcomes, errors: Errors): Staging {
    Staging(l, outcomes, errors, [])
  }

  datatype Attempted = Attempted(left: Tree, history: seq<Tree>, outcomes: Outcomes, errors: Errors,
                                 committed: seq<nat>, error: Option<GitError>)

  /** One clone, the commits of every unresolved request, and one push. */
  function RunAttempt(batch: seq<Work>, left: Tree, history: seq<Tree>, outcomes: Outcomes, errors: Errors,
      env: Attempt): Attempted
    requires history != []
  {
    var cloned := history + env.before;
    if env.clone.Some? then Attempted(left, cloned, outcomes, errors, [], env.clone)
    else
      Publish(cloned, Prepared(batch, left, cloned, outcomes, errors, env), env)
  }

  /** The clone after every unresolved request was applied to it. */
  function Prepared(batch: seq<Work>, left: Tree, cloned: seq<Tree>, outcomes: Outcomes, errors: Errors,
        env: Attempt): Staging
    requires cloned != []
  {
    StageAll(Cloned(ResetTo(Tip(cloned), left, env.keeps), outcomes, errors), batch, Unresolved(|batch|, outcomes), env)
  }

  /** One push for everything committed, or none when nothing was. */
  function Publish(cloned: seq<Tree>, st: Staging, env: Attempt): Attempted {
    if st.committed == [] then Attempted(Untracked(st.local), cloned, st.outcomes, st.errors, [], None)
    else
      Attempted(Untracked(st.local), AfterPush(cloned, env.during, st.local.head, env.push), st.outcomes, st.errors,
                st.committed, PushError(env.during, env.push))
  }

  function Resolve(n: nat, outcomes: Outcomes, fill: nat -> Outcome): Outcomes {
    outcomes + map i: nat | i < n && i !in outcomes :: fill(i)
  }

  /** The given requests all get this outcome. */
  function Marked(outcomes: Outcomes, numbers: seq<nat>, outcome: Outcome): Outcomes {
    outcomes + map i | i in numbers :: outcome
  }

  /** What the attempt settles: committed requests once pushed, everything on a permanent error. */
  function Settled(n: nat, r: Attempted): Outcomes {
    match r.error
    case None => Marked(r.outcomes, r.committed, Done)
    case Some(error) => if error.permanent then Resolve(n, r.outcomes, (i: nat) => Permanent(error)) else r.outcomes
  }

  /** What is left when the loop stops is given its own commit error, or else the last error of the loop. */
  function Leftover(errors: Errors, last: Cause, attempts: nat, drained: bool, i: nat): Outcome {
    var cause := if i in errors then Commit(errors[i]) else last;
    if drained then StoppedEarly(cause) else Exhausted(attempts, cause)
  }

  datatype Result = Result(outcomes: Outcomes, history: seq<Tree>, attempts: nat)

  function Rest(n: nat, outcomes: Outcomes, errors: Errors, last: Cause, budget: nat, drained: bool): Outcomes {
    Resolve(n, outcomes, (i: nat) => Leftover(errors, last, budget, drained, i))
  }

  function Finish(n: nat, outcomes: Outcomes, errors: Errors, last: Cause, history: seq<Tree>, made: nat,
      budget: nat, drained: bool): Result {
    Result(Rest(n, outcomes, errors, last, budget, drained), history, made)
  }

  /** The retry loop from attempt k on; the environment's answers bound the attempts. */
  function Retry(batch: seq<Work>, envs: seq<Attempt>, k: nat, left: Tree, history: seq<Tree>, outcomes: Outcomes,
      errors: Errors, last: Cause): (result: Result)
    requires history != [] && k <= |envs|
    ensures result.attempts <= |envs|
    decreases |envs| - k, 1
  {
    if k == |envs| || Unresolved(|batch|, outcomes) == [] then
      Finish(|batch|, outcomes, errors, last, history, k, |envs|, false)
    else
      Decide(batch, envs, k, RunAttempt(batch, left, history, outcomes, errors, envs[k]), last)
  }

  /** After attempt k: stop on a permanent error, when all is settled, or during the wait; otherwise try again. */
  function Decide(batch: seq<Work>, envs: seq<Attempt>, k: nat, r: Attempted, last: Cause): (result: Result)
    requires r.history != [] && k < |envs|
    ensures result.attempts <= |envs|
    decreases |envs| - k, 0
  {
    var n, budget, settled := |batch|, |envs|, Settled(|batch|, r);
    var latest := if r.error.Some? then Git(r.error.value) else last;
    if (r.error.Some? && r.error.value.permanent) || Unresolved(n, settled) == [] then
      Finish(n, settled, r.errors, latest, r.history, k + 1, budget, false)
    else if k + 1 < budget && envs[k].wait.Draining? then
      Finish(n, settled, r.errors, latest, r.history, k + 1, budget, true)
    else if k + 1 < budget && envs[k].wait.Cancelled? then
      Finish(n, settled, r.errors, WaitCancelled, r.history, k + 1, budget, false)
    else
      Retry(batch, envs, k + 1, r.left, r.history, settled, r.errors, latest)
  }

  /** A whole write-back, in a clone where an earlier one may have left files. */
  function WriteBack(batch: seq<Work>, envs: seq<Attempt>, left: Tree, history: seq<Tree>): (result: Result)
    requires history != []
    ensures result.attempts <= |envs|
  {
    Retry(batch, envs, 0, left, history, map[], map[], Unknown)
  }
}
