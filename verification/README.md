# argo-watcher: a Dafny model of its protocols

argo-watcher accepts deployment tasks, writes image tags back to a GitOps repository, polls
ArgoCD until a rollout ends, and records one outcome per task. Several replicas share one task
table. This project models the parts where those promises are hardest to keep, and proves them
for every input, every run and every behaviour of the outside world.

Everything the outside decides arrives as a parameter: what the database, the remote and the API
answered, what the clock read, which other writers moved the branch. A statement for all
parameters is a statement for all environments. Code that changes state in place is a class or a
method with a loop, proved equal to a function on values; the state machines and the lemmas use
those functions.

## What is modelled

**Leases and takeover** (`TaskTable`, `LeaseGuard`, `LeaseProtocol`, `LeaseInvariant`, `LeaseSteps`,
`LeaseSafety`, `LeaseMargin`, `LeaseOutcomes`). The shared table with the SQL statements as methods, the renewal
guard, and a protocol in which any number of replicas accept, claim, renew, sweep, abort, delete and
release, one statement per step, and the status each of them leaves. A renewal is checked at one instant, issued at a later one,
executed later still, and answered or not; a statement reported as failed may still execute. Claims
of a row are numbered by the model only, since the code compares owners and a process can sweep
its own row. The result: at most one monitor holds a task in every run *exactly when* the lag from
claim to guard plus the time from the age check to the execution of the renewal is at most one
renewal interval (and one nanosecond, from the two strict comparisons). The code enforces neither
bound: the statement's own timeout is one whole interval and starts only after the check. Further hypotheses, all
part of the protocol's steps: one clock for all replicas; checking `Lost()` and writing the status is one step;
the unguarded abort of a stale takeover falls within the lag; a replica's monitors end when it
releases; its sweep is over before it releases, and it admits nothing afterwards.

**Batched git write-back** (`Overrides`, `OverrideContent`, `GitModel`, `GitLeftovers`, `GitTruth`,
`GitNecessity`, `GitRefinement`, `GitLeaks`, `GitAlone`, `GitReports`, `GitOutcomes`, `GitRepo`, `Backoff`). A branch is the
sequence of trees its tip has shown; a clone has files, an index and a head; a push is a compare-and-swap on
the tip, and its answer may be lost. A commit can fail before the file is written, before it is staged, or
after. The hard reset that starts every attempt may or may not remove a file an earlier attempt wrote and
never staged: that is the git library's affair and a parameter of each attempt. A reported success is always
true *exactly when* no request contradicts itself, no two requests set the same parameter of the same file,
and, where resets keep such leftovers and commits can fail before staging, nobody asks for anything. From a
clean start a successful push equals writing the requests back one by one *exactly when* no failed commit
leaks, that is, no request still standing failed after writing the very file a later request commits, or after
staging its own with any later commit to come.

No write-back of the program is ever cancelled: both paths pass `context.Background()`
(`internal/argocd/batcher.go:156`, `internal/argocd/git_updater.go:150`). What is proved of cancelled waits
concerns the functions as they are written, not a run of the program.

**Batcher** (`BatchQueue`, `BatchProtocol`). The coalescing queue under its lock, and every
interleaving of submitters, loops and shutdown: each accepted request is in exactly one place, keys
are first in first out, no wake-up is lost, and after the close the working steps of every run are bounded
*exactly when* the batch limit is at least one. The configuration refuses a limit of zero
(`internal/updater/config.go:65-66`), so the program always drains.

**Rollout and deadlines** (`MachineInts`, `Durations`, `Deadlines`, `Handovers`, `Rollout`, `Verdicts`). 64-bit duration
arithmetic, the poll budget, chains of handovers, the poll loop over arbitrary answers, which poll ends it,
and which status is recorded for which ending. Two inputs break the arithmetic and are stated as such: the largest timeout
with a one-second step gets a single poll, and with a delay that is not a whole number of seconds a
long timeout outlasts its polls. The program supplies neither, nor a delay near the largest duration: its
delay is fixed at 15 seconds (`internal/server/server.go:109`), for which the window always covers the
timeout. However often a deployment changes hands, every replica's polling ends within two delays of
the timeout it was accepted with, after the time it took to start; a window past 97 days may add a second.

**Supersession** (`TaskList`, `Supersession`). The in-memory task list and every interleaving of
cancellations, insertions, outcomes and sweeps.

**Mirrored status** (`WsStatus`, `WsProtocol`). The browser's REST and WebSocket reconciler, under
every interleaving of fetches, frames, actions, close reports and subscribers. Retired sockets
deliver no messages, as section 4 "Feedback from the protocol" of the WHATWG WebSockets Standard has it.

**OIDC decisions** (`OidcCache`, `OidcRuns`). The validation cache and the service that answers from
it, with every reading of the clock explicit, over any sequence of calls. An acceptance can outlive the
token's `exp` (section 4.1.4 of RFC 7519) by the time between the two readings that store it; the exact condition is proved.

## Where the code and its comments differ

The model follows the code in each case.

- `internal/argocd/git_writeback_batch.go:35` describes a nil outcome as pushed or nothing to write;
  it is also given to a request that finds its content in an unpushed commit of the same batch.
- `internal/argocd/git_writeback_batch.go:217-219` says the attempt count is asserted only when the
  budget was spent; a wait that is cancelled asserts it too (no caller's context ever cancels one).
- `internal/updater/updater.go:291-293` takes equal bytes for a clean worktree; a file written, never staged
  and kept by the reset is equal and was never committed.
- `internal/auth/oidc_cache.go:150-152` says a cached decision can never outlive its token; the
  lifetime and the deadline are computed from two clock readings.
- `internal/argocd/deployment_monitor.go:340-342` calls the window the timeout rounded up; with a
  delay that is not a whole number of seconds, which the program does not configure, it can be shorter than
  the timeout.
- `internal/helpers/duration.go:24` promises a ceiling; near the largest duration, far from the 15 seconds the
  program passes, the sum overflows and the result is 1.
- `internal/argocd/git_writeback.go:119` expects an overflowing shift to become non-positive; a wrapped value can
  be positive, as for attempt 40, and is then above the cap.

## Model

| member | source | states |
|---|---|---|
| TaskTable.PickOldest | internal/state/lease.go:164-174 | the ids kept by ORDER BY created LIMIT: all eligible ones or exactly the limit, none younger than one left out |
| TaskTable.TaskTable.ClaimTask | internal/state/lease.go:77-85 | the row becomes owned for one TTL from now, and no other row changes |
| TaskTable.TaskTable.RenewLease | internal/state/lease.go:95-114 | held exactly when the row still names this owner, and only then is its deadline moved |
| TaskTable.TaskTable.ReleaseOwnedLeases | internal/state/lease.go:127-135 | no unfinished row names the owner afterwards, and each one released is claimable from the next instant on |
| TaskTable.TaskTable.ClaimExpiredTasks | internal/state/lease.go:158-188 | the oldest lapsed unfinished rows up to the limit change hands, and none of them is claimable again within a TTL |
| TaskTable.TaskTable.SetTaskStatus | internal/state/postgres_state.go:163-180 | found exactly when the row exists; that row takes just this status, keeps the rest, and no other row changes |
| TaskTable.TaskTable.ProcessObsoleteTasks | internal/state/postgres_state.go:259-286 | exactly the unknown applications older than an hour and the retirable rows go, counting those this very pass aborted; the rest stay as they were |
| TaskTable.TaskTable.DeleteExpired | internal/state/postgres_state.go:301-339 | the batches together delete exactly the retirable rows, and count them |
| TaskTable.TaskTable.DeleteBatch | internal/state/postgres_state.go:310-331 | one statement deletes the oldest retirable rows up to the batch size, and a short batch leaves none |
| TaskTable.RetirableIs | internal/state/postgres_state.go:310-318 | retention takes the finished rows older than its window, but for those a lease still protects |
| LeaseGuard.LeaseGuard.constructor | internal/argocd/lease_guard.go:42-49 | a new guard is not lost at the instant it is stamped |
| LeaseGuard.LeaseGuard.Tick | internal/argocd/lease_guard.go:57-84 | gives up exactly on age or on a refused renewal, stamps the issue instant on a granted one, and stays on a failed one |
| LeaseGuard.LeaseGuard.IsLost | internal/argocd/lease_guard.go:93-103 | lost by flag or by age |
| LeaseGuard.LostCanBeRegained | internal/argocd/lease_guard.go:66-83 | Lost() is not monotone: a renewal issued before ageing and answered after it revives the guard |
| LeaseInvariant.LapseKills | internal/argocd/lease_guard.go:97-103 | once a row lapsed, its current monitor is lost, no answer it awaits can revive it and no statement of its can still execute |
| LeaseSteps.Renewing | internal/state/lease.go:95-114 | a renewal that executes late, its monitor waiting for it or not, keeps the invariant |
| LeaseSteps.Finishing | internal/argocd/argo_status_updater.go:160-211 | only the monitor of the current claim can record an outcome |
| LeaseSteps.Committing | internal/state/lease.go:161-178 | when a sweep commits, every claim it supersedes is already dead |
| LeaseSteps.StepKeepsInv | internal/state/lease.go:77-188 | every step of every replica keeps the lease invariant |
| LeaseSafety.TightIsExclusive | internal/argocd/lease_guard.go:28-41 | in every run at most one monitor of a task, on replicas not yet released, has Lost() false |
| LeaseMargin.ExclusiveExactlyWhenTight | internal/argocd/lease_guard.go:97-103 | exclusivity in every run holds if and only if lag plus statement time fits into one renewal interval |
| LeaseMargin.TwoWatchers | internal/argocd/lease_guard.go:31-37 | past that bound, a run in which one process sweeps its own row and both its monitors hold the task |
| LeaseSafety.OlderMonitorsStayLost | internal/argocd/argo_status_updater.go:160-177 | once a newer claim of a row exists, every older monitor is lost at every later instant |
| LeaseSafety.OneOutcomePerTask | internal/argocd/resume.go:77-84 | over a whole run one monitor at most ever writes a task's outcome, the unguarded stale abort included |
| LeaseSafety.NeverReopened | internal/state/postgres_state.go:163-180 | a task that left progress is never in progress again |
| LeaseOutcomes.OutcomeStands | internal/argocd/argo_status_updater.go:160-211 | the outcome a monitor records, or the abort of a stale takeover, is what the row shows at every later instant |
| LeaseOutcomes.RowAfter | internal/state/postgres_state.go:163-286 | rows begin in progress, end by the two deletions, and change status in four kinds of step only, each to its own status |
| LeaseOutcomes.OnlyItsMonitorOverrules | internal/argocd/argo_status_updater.go:160-211 | a status that is not in progress changes only when the current claim's own monitor records its outcome |
| LeaseSafety.ReleasedForGood | internal/server/task_reaper.go:75-88 | a row handed over at shutdown is never owned by that replica again, late renewals included |
| LeaseSafety.LiveMonitorFindsItsRow | internal/state/postgres_state.go:259-339 | a monitor that holds its claim and has not written finds its row, whatever sweeps and deletions did |
| LeaseMargin.FindsExactlyWithinInterval | internal/state/postgres_state.go:259-339 | where monitors are exclusive, a monitor that holds its claim and has not written always finds its row if and only if the lag is at most one renewal interval |
| LeaseMargin.RetiredUnderWatch | internal/state/postgres_state.go:310-318 | past that lag, a run in which retention takes a cancelled row at the instant its lease ends, under a guard that still holds |
| LeaseSafety.ClaimsLieApart | internal/state/lease.go:158-188 | two claims of one row lie more than a TTL apart unless it was released in between |
| LeaseSafety.SweepsAreDisjoint | internal/state/lease.go:141-143 | sweeps in flight on any replicas hold disjoint rows, all of them lapsed and unfinished |
| LeaseSafety.LockedRowsHold | internal/state/lease.go:161-178 | what a sweep locked is what it commits: no step in between changes a locked row |
| Overrides.OverrideFile.MergeParameters | internal/updater/updater.go:355-369 | the nested loops put each new parameter over the first entry of its name, or at the end |
| Overrides.MergeHasShape | internal/updater/updater.go:355-369 | entry by entry: first match takes the last new value, all else stays in place, missing names follow in order of appearance |
| Overrides.MergeLength | internal/updater/updater.go:355-369 | the file grows by exactly the number of distinct new names |
| Overrides.MergeLookup | internal/updater/updater.go:355-369 | last write wins, and a name the new content lacks keeps its value |
| Overrides.MergeConcat | internal/updater/updater.go:355-369 | merging one content after another is merging their concatenation |
| Overrides.MergeTwice | internal/updater/updater.go:355-369 | merging the same content again changes nothing, duplicates included |
| OverrideContent.GenerateOverrideFileContent | internal/argocd/git_writeback.go:29-63 | parameters are exactly the tags of managed images under their paths, grouped in the order of the images; an error exactly when a match lacks its path |
| OverrideContent.WantedIs | internal/argocd/git_writeback.go:41-60 | a parameter is written if and only if some alias manages the image, names this path, and the tag is the image's, forced to a string |
| OverrideContent.ConsistentExactly | internal/argocd/git_writeback.go:41-60 | the content contradicts itself if and only if two managed images share a path with different tags |
| OverrideContent.OrderIsHarmless | internal/argocd/git_writeback.go:41-42 | the random order of the aliases shows in no merged value, contradictory contents included: one image gives all its aliases one tag, and the images keep their order |
| OverrideContent.SomeOrderMatters | internal/updater/updater.go:355-369 | the order of the images does matter: every content that contradicts itself has two orders that merge to different values |
| GitTruth.StagingKeepsOthers | internal/argocd/git_writeback_batch.go:137-142 | while commits succeed and fail, a parameter nobody sets stays as cloned in files, index and head |
| GitTruth.SettlingKeepsOutcomes | internal/argocd/git_writeback_batch.go:110-124 | no attempt changes an outcome once set |
| GitTruth.AttemptIsTruthful | internal/argocd/git_writeback_batch.go:130-154 | an attempt reports as done only what the cloned tip or the pushed commit shows |
| GitTruth.RetryIsTruthful | internal/argocd/git_writeback_batch.go:57-107 | for a well separated batch no retry, fault, competing writer, cancellation or drain makes a reported success untrue, as long as no leftover survives a reset |
| GitTruth.WriteBackIsComplete | internal/argocd/git_writeback_batch.go:57-107 | exactly one outcome per request, at most the budgeted attempts, and a branch that only grows |
| GitReports.WriteBackReports | internal/argocd/git_writeback_batch.go:213-238 | a failure that counts attempts made them all unless a wait was cancelled, and a failure that names a drain had its last wait drained |
| GitReports.AccurateExactlyUnlessCutShort | internal/argocd/git_writeback_batch.go:95-106 | with given answers of the waits, every failure that counts attempts counts those made, for every batch and every git answer, if and only if no wait before the last is cancelled before one is drained |
| GitReports.CancelledWaitOverstates | internal/argocd/git_writeback_batch.go:101-106 | one that is cancelled after fewer attempts is reported as the whole budget |
| GitOutcomes.EveryOutcomeHasItsCause | internal/argocd/git_writeback_batch.go:25-31 | every outcome of a write-back follows from the request and the answers of the attempts made: done, superseded, a configuration error, a permanent error heard last, or a leftover whose own last commit failure comes before the loop's last error |
| GitOutcomes.SettledWithoutAPush | internal/argocd/git_writeback_batch.go:160-205 | a request with nothing to write is settled by the first attempt that clones: superseded, its configuration error, or done; no other request gets a configuration error, and one with such an error is never done |
| GitOutcomes.NoCloneSettlesNothing | internal/argocd/git_writeback_batch.go:130-136 | while nothing could be cloned no request is done, superseded or told of a configuration error |
| GitNecessity.TruthfulExactlyWhenSeparated | internal/argocd/git_writeback_batch.go:57-205 | success reports are true under every environment if and only if the batch is well separated and, where resets keep unstaged leftovers, asks for nothing |
| GitNecessity.FindingTheLeftover | internal/updater/updater.go:291-300 | a leftover the reset keeps equals what a request wants, so the request is reported done on a branch that never held it |
| GitNecessity.LeftoverIsReported | internal/updater/updater.go:302-317 | such a leftover arises within one call: a first attempt that writes and cannot stage, and a second that finds its file |
| GitNecessity.ContradictingItself | internal/updater/updater.go:262-268 | a request with two values for one name is reported done on a branch that never showed it |
| GitNecessity.Overwriting | internal/argocd/git_writeback_batch.go:187-205 | a later request overwrites an earlier one of the batch, and both are reported done |
| GitNecessity.Piggybacking | internal/argocd/git_writeback_batch.go:198-202 | a request found in an unpushed commit is reported done although the push is refused |
| GitRefinement.PushEqualsOneByOne | internal/argocd/git_writeback_batch.go:130-154 | from a clean start and unless a failed commit leaks, a successful push leaves the tree of writing the requests one after another on the cloned tip, shared files included |
| GitLeaks.OneByOneExactlyUnlessLeaking | internal/argocd/git_writeback_batch.go:130-154 | for a well separated batch with contents, every attempt with these stops and failures, from a clean start on any branch, equals the one-by-one write-back if and only if none leaks |
| GitLeaks.LeakReachesHead | internal/updater/updater.go:302-329 | a failure after writing or staging leaves in the clone what the later commit takes along |
| GitLeaks.LeakedFailureTravels | internal/updater/updater.go:302-329 | the leak is live on the branch while its request is reported failed with its own commit error |
| GitRefinement.AttemptKeepsOthers | internal/updater/updater.go:341-353 | whatever fails, an added commit keeps every parameter no request names: no competing change is lost |
| GitRefinement.UpdateKeepsOrder | internal/updater/updater.go:201-236 | other files are untouched and existing entries keep their places |
| GitAlone.BatchOfOneIsAlone | internal/argocd/git_writeback.go:141-174 | a batch of one ends with the branch, the success and the attempts of the single-application path, a drain counting as a shorter budget and a lasting supersession as no write |
| GitRepo.GitRepo.Clone | internal/updater/updater.go:89-157 | index and head are the remote tip, and so are the files, but for those never staged where the reset keeps them |
| GitRepo.GitRepo.MergeOverrideFileContent | internal/updater/updater.go:262-279 | an absent file takes the content verbatim, an existing one is merged into |
| GitRepo.GitRepo.CommitAppLocal | internal/updater/updater.go:218-332 | commits only a change, and says what each kind of failure leaves behind |
| GitRepo.GitRepo.Push | internal/updater/updater.go:341-353 | the tip moves only if nobody else moved it, even when the answer is lost |
| GitRepo.GitRepo.UpdateApp | internal/updater/updater.go:201-210 | one commit and one push, or none, on a fresh clone |
| GitRepo.RunGitUpdateWithRetry | internal/argocd/git_writeback.go:141-174 | the loop stops at success, permanent error, supersession, cancellation or the budget, and equals the single-path function |
| GitRepo.BatchRun.UnresolvedRequests | internal/argocd/git_writeback_batch.go:244-252 | the requests without an outcome, in batch order |
| GitRepo.BatchRun.ApplyRequest | internal/argocd/git_writeback_batch.go:160-205 | one request's effect on clone, outcomes, errors and commits, in every branch: superseded, a configuration error, nothing to write, or a commit that succeeds, fails or finds its content |
| GitRepo.BatchRun.ApplyRequests | internal/argocd/git_writeback_batch.go:137-142 | the open requests are applied one after another, in batch order |
| GitRepo.BatchRun.RunBatchAttempt | internal/argocd/git_writeback_batch.go:130-154 | one clone, every unresolved request once and in order, one push only if something was committed |
| GitRepo.BatchRun.RecordAttempt | internal/argocd/git_writeback_batch.go:110-124 | committed requests are done after a push, all open ones fail on a permanent error, otherwise nothing is settled |
| GitRepo.BatchRun.FailUnresolved | internal/argocd/git_writeback_batch.go:207-211 | exactly the open requests get the error |
| GitRepo.BatchRun.ResolveRemaining | internal/argocd/git_writeback_batch.go:224-238 | each open request ends with its own commit error or else the last one, marked as drained or exhausted |
| GitRepo.RunBatchWriteBack | internal/argocd/git_writeback_batch.go:57-107 | the loop gives one outcome per request within the budget, each with its cause, and for a well separated batch without kept leftovers only true successes |
| Backoff.CeilingIsCappedDoubling | internal/argocd/git_writeback.go:117-122 | for every attempt number, wrap-around included, the ceiling is min(250ms * 2^(attempt-1), 2s) |
| Backoff.AttemptZeroWaitsTheCap | internal/argocd/git_writeback.go:118 | attempt zero underflows the shift and waits the cap |
| Backoff.WrappedAndPositive | internal/argocd/git_writeback.go:117-122 | the product of attempt 40 wraps to a positive value, which only the cap refuses |
| BatchQueue.SameKeySameBranch | internal/argocd/batcher.go:74-76 | requests coalesce if and only if they name the same repository and branch |
| BatchQueue.Batcher.Submit | internal/argocd/batcher.go:80-96 | queued last under its key unless closed, and a loop starts exactly when the key has none |
| BatchQueue.Batcher.NextBatch | internal/argocd/batcher.go:105-123 | the next batch in order within the limit, or the key handed over exactly when nothing waits |
| BatchQueue.Batcher.FlushOnce | internal/argocd/batcher.go:104-125 | one round: a batch of 1 to the limit leaves from the front while submissions join at the back, or the loop ends |
| BatchQueue.Batcher.FlushLoop | internal/argocd/batcher.go:102-126 | with any submissions meanwhile, everything leaves in order in batches of 1 to the limit, and the loop ends |
| BatchQueue.Batcher.Close | internal/argocd/batcher.go:202-208 | closed from then on, with the drain signal given exactly once however often it is called |
| BatchProtocol.StepKeepsInv | internal/argocd/batcher.go:80-169 | every critical section, answer and sign-off keeps the queue's invariant |
| BatchProtocol.FirstInFirstOut | internal/argocd/batcher.go:88-122 | under each key the accepted requests are the answered, then those in flight, then those waiting |
| BatchProtocol.OnePlaceEach | internal/argocd/batcher.go:80-169 | each accepted request is in exactly one place, once, and no other request is anywhere |
| BatchProtocol.ActiveIsLooped | internal/argocd/batcher.go:99-114 | no lost wake-up: a key is active exactly when a loop drains it, and a waiting request has an active key |
| BatchProtocol.EveryInterleaving | internal/argocd/batcher.go:80-125 | in every run: order per key, batch limit, no lost wake-up, and a wait group equal to active keys plus loops signing off |
| BatchProtocol.DrainedIsAnswered | internal/argocd/batcher.go:210-215 | when the wait group is zero every accepted request has its one answer |
| BatchProtocol.ClosedRejects | internal/argocd/batcher.go:83-87 | after the close no submission is accepted, and none changes anything |
| BatchProtocol.DrainEnds | internal/argocd/batcher.go:202-221 | in any continuation of a closed run the working steps are bounded by the work left, and nothing more is accepted |
| BatchProtocol.DrainCompletes | internal/argocd/batcher.go:202-221 | a drain that cannot go on has no loop and no unanswered request left |
| BatchProtocol.DrainsExactlyWhenBounded | internal/argocd/batcher.go:114-121 | every closed run has a bound on the working steps that may follow if and only if the batch limit is at least one |
| BatchProtocol.SpinsWithoutLimit | internal/argocd/batcher.go:114-121 | with a limit of zero, which the configuration refuses, a loop may take empty batches any number of times |
| Durations.MulSaturates | internal/helpers/duration.go:11-22 | the product or the largest duration, never a wrapped value |
| Durations.CeilExactlyWhenItFits | internal/helpers/duration.go:26-35 | the ceiling, at least 1, if and only if adding the unit does not overflow |
| Deadlines.ConfigureRetryOptions | internal/argocd/deployment_monitor.go:296-326 | the loop's attempts and deadline are the ones handovers are measured against, and neither is zero |
| Deadlines.AttemptsAreIdeal | internal/argocd/deployment_monitor.go:331-337 | the machine's poll budget is the exact one except for the largest timeout at a one-second step, which the program does not configure and which gets one poll |
| Deadlines.WindowIsIdeal | internal/argocd/deployment_monitor.go:346-350 | the window is the saturated exact product, with the same single exception |
| Deadlines.WindowCoversTimeout | internal/argocd/deployment_monitor.go:339-350 | for whole-second delays the window exceeds the timeout by at most one delay |
| Deadlines.WindowNeverExceeds | internal/argocd/deployment_monitor.go:346-350 | for any delay the window is at most the timeout plus one delay |
| Deadlines.CoveredExactlyForWholeSeconds | internal/argocd/deployment_monitor.go:336 | the exact poll budget exceeds every timeout if and only if the delay is a whole number of seconds, as the program's 15 are |
| Deadlines.DefaultWindow | internal/argocd/deployment_monitor.go:573-581 | without configured attempts the window is the historical 225 seconds rounded up to whole delays |
| Deadlines.ConfiguredAttempts | internal/argocd/deployment_monitor.go:331-350 | without a timeout of its own a task gets exactly the configured attempts, a delay apart, saturating |
| Handovers.SecondsTruncate | internal/argocd/resume.go:46 | the conversion of the remainder through a 64-bit float drops the fraction, or from 97 days on may round up by one second |
| Handovers.RemainingIs | internal/argocd/resume.go:59-70 | what is left counts from the whole second of the acceptance, and a takeover is made if and only if that is a second or more |
| Handovers.HandoverKeepsDeadline | internal/argocd/resume.go:31-70 | a resumed timeout is at least 1 and its budget ends within one delay of the accepted window (past 97 days, and a second), and for whole-second delays less than two seconds before it |
| Handovers.ChainKeepsDeadline | internal/argocd/resume.go:14-30 | in any chain of replicas, acceptor included and whatever each is configured with, every turn's polling ends at most a delay (past 97 days, and a second) after the deadline its configuration gives the acceptance, and for whole-second delays less than two seconds before it, not counting its start |
| Handovers.ChainEnds | internal/argocd/resume.go:21-26 | for a task with a timeout of its own, no replica of a chain polls beyond that timeout plus two of the longest delays and the longest start, and past 97 days one second |
| Rollout.GetRolloutStatus | internal/models/argo.go:156-184 | the loop over images and the cascade of health and sync states |
| Rollout.SuccessMeans | internal/models/argo.go:156-184 | success if and only if every image runs, in sync, and healthy or acceptably suspended |
| Verdicts.StatusMeans | internal/models/argo.go:156-184 | each rollout status from images, proxy, health and sync, in the order of the checks |
| Rollout.WaitRollout | internal/argocd/deployment_monitor.go:209-290 | any answers: the sentinels never escape, an observed state is reported instead of a deadline, a result has an application, and it is settled only if the last poll was |
| Rollout.SettlingEndsTheLoop | internal/argocd/deployment_monitor.go:514-530 | the first settled application ends the loop, and the loop ends well only on one |
| Rollout.EndsForItsReason | internal/argocd/deployment_monitor.go:231-267 | every bad ending has its cause in the last poll: cancelled, abandoned, provably wrong image, degraded after a change, deadline, unknown application, or all attempts used; and a poll that finds the task cancelled or given up always ends the loop so |
| Verdicts.PollingConcludes | internal/argocd/deployment_monitor.go:220-290 | the watch stops at the first poll that is cancelled, given up, unknown, good, broken by the new images or proved wrong on the first look at the desired state, or at the deadline or the last attempt, and ends as that poll says |
| Rollout.Deployment.HandleArgoAPIFailure | internal/argocd/deployment_monitor.go:390-406 | app-not-found exactly for an unknown application, aborted exactly for a deadline, cancellation, timeout, network fault or a status from 500, failed otherwise |
| Rollout.Deployment.ProcessDeploymentResult | internal/argocd/deployment_monitor.go:355-366 | deployed exactly on a settled application, failed otherwise |
| Rollout.Deployment.WaitForApplicationDeployment | internal/argocd/argo_status_updater.go:245-277 | a result comes only through polling and with an application; internal sentinels never come out |
| Rollout.Deployment.WaitForRollout | internal/argocd/argo_status_updater.go:136-228 | at most one outcome is written, and it is the verdict; a superseded task is announced as cancelled and nothing is written |
| Rollout.DeployedExactlyWhenSeen | internal/argocd/argo_status_updater.go:160-211 | deployed is recorded if and only if the claim is held, nothing drains and the final poll itself saw success or fire-and-forget |
| Rollout.WritesExactlyWhenInCharge | internal/argocd/argo_status_updater.go:160-211 | a final status is written if and only if the claim is held, nothing drains, and neither the outset nor the write-back nor the last poll found the task superseded or given up |
| Verdicts.RecordsWhatEnded | internal/argocd/deployment_monitor.go:532-560 | app-not-found is recorded if and only if an unknown application ended the watch, aborted if and only if a deadline, timeout, cancellation, network fault or server error did and no state was observed, deployed if and only if the last poll saw it good, failed in every other case in charge |
| Rollout.ResumeRollout | internal/argocd/resume.go:31-50 | a task with less than two seconds left may be aborted on the spot, any other is watched within what is left of its own window |
| TaskList.ImageNamesOverlap | internal/state/state.go:30-41 | true exactly when the lists share a name |
| TaskList.InMemoryState.AddTask | internal/state/in_memory_state.go:41-51 | the new task is in progress at the end of an otherwise unchanged list |
| TaskList.InMemoryState.SetTaskStatus | internal/state/in_memory_state.go:130-143 | the first task of that id takes the status, every other stays, and an error exactly when there is none |
| TaskList.InMemoryState.CancelInProgressTasks | internal/state/in_memory_state.go:150-168 | a task in progress of the application that shares an image name is cancelled if and only if the caller is validated or the task is not; nothing else changes, and the count is of those |
| TaskList.InMemoryState.ProcessObsoleteTasks | internal/state/in_memory_state.go:196-209 | unknown applications go, stale tasks are aborted, the order stays |
| TaskList.SweepIs | internal/state/in_memory_state.go:196-209 | what the sweep leaves and where it came from, task by task |
| Supersession.CancellationIsComplete | internal/state/in_memory_state.go:150-168 | nothing cancellable is left, nothing else is touched, and a count of zero means no change |
| Supersession.StepKeepsInv | internal/state/in_memory_state.go:41-209 | cancelling, adding, finishing and sweeping keep the supersession invariant |
| Supersession.RivalsInProgress | internal/argocd/argo.go:198-207 | in every interleaving, two rivals in progress need a lack of authority, a failed cancellation, or an insertion between the two statements |
| Supersession.MissedExactlyThoseInsertedSince | internal/argocd/argo.go:198-207 | when an admission comes to insert and nothing ended since it cancelled, the rivals in its reach still in progress are exactly those inserted since |
| Supersession.OlderValidatedNewerNot | internal/state/state.go:23-25 | with serialized admissions the older rival is validated and the newer is not |
| Supersession.UnvalidatedSparesValidated | internal/state/state.go:20-25 | no cancellation of an unvalidated deployment changes a validated task |
| Supersession.ValidatedOutlivesUnvalidated | internal/state/state.go:20-25 | a run in which an older validated deployment and a younger unvalidated rival are both in progress |
| Supersession.NeverThreeRivals | internal/argocd/argo.go:191-207 | with serialized admissions there are never three rivals in progress |
| Supersession.InterleavingDefeatsSupersession | internal/argocd/argo.go:198-207 | two interleaved admissions can leave two validated rivals in progress |
| Supersession.NoReentry | internal/state/in_memory_state.go:130-209 | a task that left progress never returns to it |
| WsStatus.WsStatusService.IssueFetch | web/src/data/wsStatusService.ts:56-57 | a fetch is numbered, and the generation noted, before it leaves |
| WsStatus.WsStatusService.SettleFetch | web/src/data/wsStatusService.ts:55-64 | an answer is applied only if still newest, else the winning state is returned |
| WsStatus.WsStatusService.UpdateStatus | web/src/data/wsStatusService.ts:98-103 | every listener is told the new state |
| WsStatus.WsStatusService.ApplyAuthoritative | web/src/data/wsStatusService.ts:93-96 | the state is broadcast, and no fetch issued before will be applied |
| WsStatus.WsStatusService.EnsureSocket | web/src/data/wsStatusService.ts:105-114 | a new socket only for listeners that have none |
| WsStatus.WsStatusService.ScheduleReconnect | web/src/data/wsStatusService.ts:155-169 | one reconnect is due, however often it is asked for, and none without a browser window |
| WsStatus.WsStatusService.Subscribe | web/src/data/wsStatusService.ts:66-78 | the cached state is told at once or a fetch is issued, and a socket is ensured |
| WsStatus.WsStatusService.Unsubscribe | web/src/data/wsStatusService.ts:80-86 | the last one out tears everything down |
| WsStatus.WsStatusService.TeardownSocket | web/src/data/wsStatusService.ts:171-186 | no socket, no reconnect, no cache, and no fetch issued before will be applied |
| WsStatus.WsStatusService.OnMessage | web/src/data/wsStatusService.ts:128-134 | a frame of another signal changes nothing, a recognised one is authoritative |
| WsStatus.WsStatusService.OnClose | web/src/data/wsStatusService.ts:136-148 | a close report counts only for the socket in use |
| WsStatus.WsStatusService.OnReconnectTimer | web/src/data/wsStatusService.ts:165-168 | the timer clears itself and ensures a socket |
| WsProtocol.StepKeepsInv | web/src/data/wsStatusService.ts:55-186 | every event keeps the reconciler's invariant |
| WsProtocol.AppliedExactlyWhenNewest | web/src/data/wsStatusService.ts:55-64 | in every run an answer is applied if and only if no later fetch, frame, action or teardown happened since it was issued |
| WsProtocol.EveryRun | web/src/data/wsStatusService.ts:55-186 | applied states are in issue order, the cached one is the one applied last since the last teardown and every listener was told it, one live socket, and in a browser listeners have a socket or a reconnect |
| WsProtocol.ServedExactlyInABrowser | web/src/data/wsStatusService.ts:155-169 | in every run whoever listens has a socket or a reconnect due if and only if there is a window to schedule it in |
| WsProtocol.RetiredForGood | web/src/data/wsStatusService.ts:110-148 | a retired socket stays retired and none of its reports touches its replacement |
| OidcCache.ValidationCache.Get | internal/auth/oidc_cache.go:56-76 | a remembered decision within its deadline, and expired ones are dropped |
| OidcCache.ValidationCache.ReclaimExpired | internal/auth/oidc_cache.go:124-131 | exactly the expired entries go |
| OidcCache.ValidationCache.EvictOne | internal/auth/oidc_cache.go:139-148 | one entry goes exactly when the cache is full |
| OidcCache.ValidationCache.Put | internal/auth/oidc_cache.go:82-105 | stored for its lifetime if it has one; others go only from a full cache, expired or evicted, and never more than 10000 stay |
| OidcCache.EntryTtlIs | internal/auth/oidc_cache.go:112-201 | a rejection lives half a minute or the interval, an acceptance the interval or until the whole second of its claim, and without a claim, or with a zero one, the full interval |
| OidcCache.OidcService.ResolveUserinfoUrl | internal/auth/oidc.go:108-150 | discovered once and kept, a failure is not remembered |
| OidcCache.OidcService.FetchUserInfo | internal/auth/oidc.go:234-280 | the provider's answer, or unavailable while the endpoint is not discovered |
| OidcCache.OidcService.ResolveIdentity | internal/auth/oidc.go:216-229 | which decision is given, whether the provider was asked, and what is remembered |
| OidcCache.OidcService.Authenticate | internal/auth/oidc.go:182-185 | a remembered decision or the provider's own answer of this call |
| OidcCache.OidcService.Validate | internal/auth/oidc.go:195-206 | granted if and only if the provider accepted in this call and the user is in a privileged group |
| OidcCache.OidcService.AllowedToRollback | internal/auth/oidc.go:284-294 | true exactly for a member of a privileged group |
| OidcRuns.AnswersAreRecent | internal/auth/oidc_cache.go:78-121 | after any calls a remembered answer is at most one interval old (30s for a rejection), an acceptance is not past its claim but for the time between two clock readings, and nothing heard since contradicts it |
| OidcRuns.UsableAfterExpiryExactly | internal/auth/oidc_cache.go:150-201 | an acceptance is usable past the instant of its claim if and only if the clock moved further between its two readings than the fraction of a second dropped and the interval leave spare |
| OidcRuns.EveryMemoryWasSaid | internal/auth/oidc.go:216-229 | after any calls, each remembered decision was given by the provider in one of them, with just that lifetime: no failure leaves or prolongs an entry |
| OidcRuns.RejectionTakesEffect | internal/auth/oidc.go:216-229 | from a rejection to the provider's next decision on that token no ordinary call is told an acceptance from memory, whatever else is served in between |
| OidcRuns.AcceptanceIsReused | internal/auth/oidc_cache.go:32-36 | a stored decision answers every ordinary call on its token without asking while it lives by every clock read, however many other calls come in between, unless it is evicted or a privileged call asks again |
| OidcRuns.NoIntervalNoMemory | internal/auth/oidc_cache.go:35-36 | without an interval every call asks the provider |

## Left out

- LeaseSafety.TightIsExclusive: does not bound claim-to-guard lag or statement time, because the code enforces neither; they are parameters of the protocol.
- LeaseSafety.LiveMonitorFindsItsRow: assumes a lag of at most one renewal interval besides, since retention takes a row at the instant its lease ends (`<=`) and a sweep only after it (`<`); FindsExactlyWithinInterval shows the bound is exact.
- LeaseGuard.LeaseGuard.Tick: does not model the ticker; the protocol lets a check happen at any instant.
- GitRepo.GitRepo.Clone: whether a hard reset removes a file written and never staged is the git library's affair, and a parameter.
- GitTruth.RetryIsTruthful: assumes no leftover survives a reset; FindingTheLeftover and LeftoverIsReported show why.
- GitRefinement.PushEqualsOneByOne: assumes a clean start and no leak; OneByOneExactlyUnlessLeaking shows the second is exact.
- GitLeaks.OneByOneExactlyUnlessLeaking: leaves out batches with an empty content, which writes a file without parameters.
- GitAlone.BatchOfOneIsAlone: assumes that a stop predicate that answered true keeps doing so, as a cancelled task stays cancelled; the two paths ask it at different instants.
- Handovers.ChainEnds: measured from each takeover; the first fetch and the write-back before polling are the time to start, unbounded as in the code's own deadline.
- WsStatus.WsStatusService.ScheduleReconnect: whether there is a browser window does not change while the service lives.
- BatchQueue.Batcher.Close: its wait for the drain, bounded by the caller's context, is not part of the method; BatchProtocol.DrainCompletes says what the drain ends with.
- BatchProtocol.DrainsExactlyWhenBounded: a limit too large for a signed integer, on which the code would fail, is not modelled.
- OidcRuns.AnswersAreRecent: measures age from the instant a decision was stored; the provider's answer is older by the time it took to arrive.
- Clock skew between replicas: one clock throughout.
- The endless loops of the task reaper, the obsolete sweep's schedule and the liveness probe: their iterations are protocol steps.
- A sweep's `now()` is its lock instant, every other statement's the instant it executes.
- SQL, go-git, SSH, HTTP, YAML and JSON themselves: each appears as the step it performs. The byte comparison before a commit is modelled as a comparison of parameters.
- Splitting the managed-images annotation, override file paths and commit messages.
- Jitter within the backoff ceiling; SHA-256, taken as injective; sorting before hashing image lists, taken as multiset equality.
- The retry library: run until success, an unrecoverable error, the last attempt or the end of the context.
- The delivery of a batch's outcomes to its waiters, and the lock around a write-back, whose failure goes to all of them.
- Cancelling on the database takes two statements there, the second of which checks again that a task is in progress; the list cancels in one.
- Metrics, logs, notifications and the text of failure reports.
- Listing, filtering and paging tasks, rollback detection, lockdown schedules, the HTTP router and the React components: no property as hard as those above.
