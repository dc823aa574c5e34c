/** Watching one rollout: the poll loop over whatever the API answers, and the outcome it may record. */
module Rollout {
  import opened Common
  import opened MachineInts
  import opened TaskTable
  import Deadlines
  import Handovers

  datatype App = App(images: seq<string>, sync: string, health: string, fireAndForget: bool, skipImageValidation: bool)

  datatype RolloutStatus = Success | NotSynced | NotAvailable | NotHealthy | Degraded

  /** What the monitor looks for. Image lists are hashed sorted, so a hash stands for a multiset. */
  datatype Watch = Watch(images: seq<string>, savedImages: multiset<string>, refresh: bool, proxy: string,
    acceptSuspended: bool)

  /** What can be read off an error from outside. */
  datatype Fault = Fault(notFound: bool, network: bool, timedOut: bool, canceled: bool, statusCode: int)

  datatype Error =
    | ForceRetry
    | AppDegraded
    | TaskSuperseded
    | LeaseLost
    | ReplicaDraining
    | ImageNotPartOfApp
    | DeadlineExceeded
    | Outside(fault: Fault)

  datatype Fetch = Fetched(app: App) | FetchFailed(fault: Fault)

  /** One round of the loop: what the state and the API say, and whether the deadline ends the wait after it. */
  datatype Poll = Poll(cancelled: bool, abandoned: bool, fetch: Fetch, imageProvablyAbsent: bool, deadlineEnds: bool)

  predicate ImagesContains(images: seq<string>, image: string, proxy: string) {
    image in images || (proxy != "" && proxy + "/" + image in images)
  }

  predicate AllPresent(w: Watch, app: App) {
    forall image :: image in w.images ==> ImagesContains(app.images, image, w.proxy)
  }

  function StatusOf(w: Watch, app: App): RolloutStatus {
    if !AllPresent(w, app) then NotAvailable
    else if app.health == "Degraded" && app.sync != "OutOfSync" then Degraded
    else if app.sync != "Synced" then NotSynced
    else if app.health == "Suspended" && app.sync == "Synced" && w.acceptSuspended then Success
    else if app.health != "Healthy" then NotHealthy
    else Success
  }

  method GetRolloutStatus(w: Watch, app: App) returns (status: RolloutStatus)
    ensures status == StatusOf(w, app)
  {
    for i := 0 to |w.images|
      invariant forall j :: 0 <= j < i ==> ImagesContains(app.images, w.images[j], w.proxy)
    {
      if !ImagesContains(app.images, w.images[i], w.proxy) {
        assert w.images[i] in w.images;
        return NotAvailable;
      }
    }
    if app.health == "Degraded" && app.sync != "OutOfSync" {
      return Degraded;
    }
    if app.sync != "Synced" {
      return NotSynced;
    }
    if app.health == "Suspended" && app.sync == "Synced" && w.acceptSuspended {
      return Success;
    }
    if app.health != "Healthy" {
      return NotHealthy;
    }
    return Success;
  }

  /** Success means every expected image runs, the application is in sync, and it is healthy or acceptably suspended. */
  lemma SuccessMeans(w: Watch, app: App)
    ensures StatusOf(w, app) == Success <==>
      && AllPresent(w, app)
      && app.sync == "Synced"
      && (app.health == "Healthy" || (app.health == "Suspended" && w.acceptSuspended))
  {
    var degraded, suspended, healthy := "Degraded", "Suspended", "Healthy";
    assert |degraded| == 8 && |suspended| == 9 && |healthy| == 7;
  }

  /** The deployment is over and good. */
  predicate Settles(w: Watch, app: App) {
    app.fireAndForget || StatusOf(w, app) == Success
  }

  function CheckRolloutStatus(w: Watch, app: App, status: RolloutStatus): Option<Error> {
    match status
    case Degraded => if multiset(app.images) != w.savedImages then Some(AppDegraded) else Some(ForceRetry)
    case Success => None
    case _ => Some(ForceRetry)
  }

  /** Only a settled application that still lacks an image is worth checking against its desired state. */
  predicate ShouldValidate(w: Watch, app: App) {
    StatusOf(w, app) == NotAvailable && app.sync == "Synced" && app.health == "Healthy"
  }

  datatype Polled = Polled(error: Option<Error>, app: Option<App>, validated: bool)

  function PollOnce(w: Watch, p: Poll, validated: bool): Polled {
    if p.cancelled then Polled(Some(TaskSuperseded), None, validated)
    else if p.abandoned then Polled(Some(LeaseLost), None, validated)
    else
      match p.fetch
      case FetchFailed(fault) => Polled(Some(Outside(fault)), None, validated)
      case Fetched(app) =>
        if app.fireAndForget then Polled(None, Some(app), validated)
        else if !validated && w.refresh && ShouldValidate(w, app) then
          if !app.skipImageValidation && p.imageProvablyAbsent then Polled(Some(ImageNotPartOfApp), Some(app), true)
          else Polled(CheckRolloutStatus(w, app, StatusOf(w, app)), Some(app), true)
        else Polled(CheckRolloutStatus(w, app, StatusOf(w, app)), Some(app), validated)
  }

  /** A poll ends the loop well exactly when the application it fetched settles; a sentinel always comes with one. */
  lemma PollSettles(w: Watch, p: Poll, validated: bool)
    ensures var r := PollOnce(w, p, validated);
      && (r.error.None? ==> r.app.Some? && Settles(w, r.app.value))
      && (r.error.Some? && r.app.Some? ==> !Settles(w, r.app.value))
      && (r.error.Some? && r.app.None? ==> !r.error.value.ForceRetry? && !r.error.value.AppDegraded?)
      && (r.error.Some? ==> !r.error.value.ReplicaDraining? && !r.error.value.DeadlineExceeded?)
  {
  }

  /** What the retry library tries again. */
  predicate Recoverable(e: Error) {
    e.ForceRetry? || (e.Outside? && !e.fault.notFound)
  }

  /** How the loop ended: its last poll, the last application fetched, and the error it stopped with. */
  datatype Ended = Ended(last: nat, app: Option<App>, error: Option<Error>)

  function PollFrom(w: Watch, polls: seq<Poll>, n: nat, app: Option<App>, validated: bool): (ended: Ended)
    requires n < |polls|
    ensures n <= ended.last < |polls|
    decreases |polls| - n
  {
    var r := PollOnce(w, polls[n], validated);
    var latest := if r.app.Some? then r.app else app;
    if r.error.None? || !Recoverable(r.error.value) || n == |polls| - 1 then Ended(n, latest, r.error)
    else if polls[n].deadlineEnds then Ended(n, latest, Some(DeadlineExceeded))
    else PollFrom(w, polls, n + 1, latest, r.validated)
  }

  /** The application's real state was seen, so that state is reported rather than the error. */
  predicate StateObserved(e: Error) {
    e.ForceRetry? || e.AppDegraded? || e.DeadlineExceeded? || (e.Outside? && (e.fault.timedOut || e.fault.canceled))
  }

  function Reported(e: Ended): Option<Error> {
    if e.app.Some? && e.error.Some? && StateObserved(e.error.value) then None else e.error
  }

  /** A deadline that passes before the first poll leaves nothing to report but itself. */
  function Watched(w: Watch, polls: seq<Poll>, late: bool): (ended: Ended)
    requires polls != []
    ensures ended.last < |polls|
  {
    if late then Ended(0, None, Some(DeadlineExceeded)) else PollFrom(w, polls, 0, None, false)
  }

  /**
   The poll loop, over any answers; there are as many polls as attempts, never none. The
   sentinels never escape, a result always comes with an application, and an application
   that settles comes only from the poll that ended the loop.
   */
  method WaitRollout(w: Watch, polls: seq<Poll>, late: bool) returns (application: Option<App>, err: Option<Error>)
    requires polls != []
    ensures application == Watched(w, polls, late).app && err == Reported(Watched(w, polls, late))
    ensures err.Some? ==> !err.value.ForceRetry? && !err.value.AppDegraded? && !err.value.ReplicaDraining?
    ensures err.Some? && application.Some? ==>
      !err.value.DeadlineExceeded? && (err.value.Outside? ==> !err.value.fault.timedOut && !err.value.fault.canceled)
    ensures err.None? ==> application.Some?
    ensures err.None? ==> (Settles(w, application.value) <==> Watched(w, polls, late).error.None?)
  {
    application := None;
    if late {
      return None, Some(DeadlineExceeded);
    }
    var validated, n := false, 0;
    ghost var target := PollFrom(w, polls, 0, None, false);
    while true
      invariant n < |polls|
      invariant PollFrom(w, polls, n, application, validated) == target
      invariant application.Some? ==> !Settles(w, application.value)
      decreases |polls| - n
    {
      var r := PollOnce(w, polls[n], validated);
      PollSettles(w, polls[n], validated);
      hide PollOnce, Settles;
      if r.app.Some? {
        application := r.app;
      }
      validated := r.validated;
      if r.error.None? {
        return application, None;
      }
      err := r.error;
      if !Recoverable(r.error.value) || n == |polls| - 1 {
        break;
      }
      if polls[n].deadlineEnds {
        err := Some(DeadlineExceeded);
        break;
      }
      n := n + 1;
    }
    if application.Some? && StateObserved(err.value) {
      err := None;
    }
  }

  /** The write-back stage before polling. */
  datatype WriteBack = WrittenBack | GaveUp | WriteFailed(fault: Fault)

  /** Everything the outside decides about one watched deployment. */
  datatype World = World(
    cancelledAtStart: bool,
    confirm: Fetch,
    writeBack: WriteBack,
    cancelledMeanwhile: bool,   // as the shared state says when the write-back gave up
    abandonedMeanwhile: bool,
    late: bool,
    polls: seq<Poll>,
    lost: bool,                 // the lease, when the outcome is due
    draining: bool)

  /** A cancelled task is reported as superseded even when this replica gives up too: nobody else will announce it. */
  function AbortedWriteBackCause(world: World): Error {
    if world.abandonedMeanwhile && !world.cancelledMeanwhile then LeaseLost else TaskSuperseded
  }

  function Saved(w: Watch, app: App): Watch {
    w.(savedImages := multiset(app.images))
  }

  predicate ReachesPolling(world: World) {
    !world.cancelledAtStart && world.confirm.Fetched? && world.writeBack.WrittenBack?
  }

  function Awaited(w: Watch, world: World): (Option<App>, Option<Error>)
    requires world.polls != []
  {
    if world.cancelledAtStart then (None, Some(TaskSuperseded))
    else if world.confirm.FetchFailed? then (None, Some(Outside(world.confirm.fault)))
    else
      match world.writeBack
      case GaveUp => (None, Some(AbortedWriteBackCause(world)))
      case WriteFailed(fault) => (None, Some(Outside(fault)))
      case WrittenBack =>
        var ended := Watched(Saved(w, world.confirm.app), world.polls, world.late);
        (ended.app, Reported(ended))
  }

  /** Why nothing is said about the deployment any more, if that is so. */
  function Overruled(world: World, err: Option<Error>): Option<Error> {
    if world.lost then Some(LeaseLost)
    else if err == Some(TaskSuperseded) then err
    else if world.draining then Some(ReplicaDraining)
    else err
  }

  function FailureStatus(e: Error): Status {
    if e.Outside? && e.fault.notFound then AppNotFound
    else if e.DeadlineExceeded? then Aborted
    else if e.Outside?
      && (e.fault.network || e.fault.canceled || e.fault.timedOut || e.fault.statusCode >= 500) then Aborted
    else Failed
  }

  /** The status written to the shared state, if any. */
  function Verdict(w: Watch, world: World): Option<Status>
    requires world.polls != []
  {
    var (app, err) := Awaited(w, world);
    match Overruled(world, err)
    case Some(LeaseLost) => None
    case Some(ReplicaDraining) => None
    case Some(TaskSuperseded) => None
    case Some(ImageNotPartOfApp) => Some(Failed)
    case Some(e) => Some(FailureStatus(e))
    case None =>
      if app.Some? && Settles(Saved(w, world.confirm.app), app.value) then Some(Deployed) else Some(Failed)
  }

  class Deployment {
    var status: Status
    var writes: seq<Status>

    constructor ()
      ensures status == InProgress && writes == []
    {
      status, writes := InProgress, [];
    }

    method Record(outcome: Status)
      modifies this
      ensures status == outcome && writes == old(writes) + [outcome]
    {
      writes := writes + [outcome];
      status := outcome;
    }

    method HandleArgoAPIFailure(e: Error)
      modifies this
      ensures status == FailureStatus(e) && writes == old(writes) + [status]
      ensures status == AppNotFound <==> e.Outside? && e.fault.notFound
      ensures status == Aborted <==>
        || e.DeadlineExceeded?
        || (&& e.Outside? && !e.fault.notFound
            && (e.fault.network || e.fault.canceled || e.fault.timedOut || e.fault.statusCode >= 500))
      ensures status in {AppNotFound, Aborted, Failed}
    {
      if e.Outside? && e.fault.notFound {
        Record(AppNotFound);
      } else if e.DeadlineExceeded? {
        Record(Aborted);
      } else if e.Outside? && (e.fault.network || e.fault.canceled || e.fault.timedOut || e.fault.statusCode >= 500) {
        Record(Aborted);
      } else {
        Record(Failed);
      }
    }

    method ProcessDeploymentResult(w: Watch, app: App)
      modifies this
      ensures status == (if Settles(w, app) then Deployed else Failed) && writes == old(writes) + [status]
    {
      var rollout := GetRolloutStatus(w, app);
      if app.fireAndForget {
        rollout := Success;
      }
      if rollout == Success {
        Record(Deployed);
      } else {
        Record(Failed);
      }
    }

    method WaitForApplicationDeployment(w: Watch, world: World) returns (app: Option<App>, err: Option<Error>)
      requires world.polls != []
      ensures (app, err) == Awaited(w, world)
      ensures err.None? ==> app.Some? && ReachesPolling(world)
      ensures err.Some? ==> !err.value.ForceRetry? && !err.value.AppDegraded?
      ensures !world.cancelledAtStart && world.confirm.Fetched? && world.writeBack.GaveUp? ==>
        err == Some(if world.cancelledMeanwhile || !world.abandonedMeanwhile then TaskSuperseded else LeaseLost)
    {
      if world.cancelledAtStart {
        return None, Some(TaskSuperseded);
      }
      if world.confirm.FetchFailed? {
        return None, Some(Outside(world.confirm.fault));
      }
      match world.writeBack {
        case GaveUp =>
          if world.abandonedMeanwhile && !world.cancelledMeanwhile {
            return None, Some(LeaseLost);
          }
          return None, Some(TaskSuperseded);
        case WriteFailed(fault) =>
          return None, Some(Outside(fault));
        case WrittenBack =>
          app, err := WaitRollout(Saved(w, world.confirm.app), world.polls, world.late);
      }
    }

    /** The whole watch: at most one outcome is written, and it is the verdict. */
    method WaitForRollout(w: Watch, world: World)
      requires world.polls != []
      modifies this
      ensures writes == old(writes) + (match Verdict(w, world) case Some(outcome) => [outcome] case None => [])
      ensures Verdict(w, world).Some? ==> status == Verdict(w, world).value
      ensures Verdict(w, world).None? ==>
        status == if !world.lost && Awaited(w, world).1 == Some(TaskSuperseded) then Cancelled else old(status)
    {
      var app, err := WaitForApplicationDeployment(w, world);
      if world.lost {
        err := Some(LeaseLost);
      } else if err == Some(TaskSuperseded) {
      } else if world.draining {
        err := Some(ReplicaDraining);
      }
      if err == Some(ReplicaDraining) || err == Some(LeaseLost) {
        return;
      }
      if err == Some(ImageNotPartOfApp) {
        Record(Failed);
      } else if err == Some(TaskSuperseded) {
        status := Cancelled;
      } else if err.Some? {
        HandleArgoAPIFailure(err.value);
      } else {
        ProcessDeploymentResult(Saved(w, world.confirm.app), app.value);
      }
    }
  }

  /**
   Taking a deployment over: one whose window has run out is aborted on the spot, any other is
   watched within what is left of the window it was accepted with, as many polls as that allows.
   The seconds are what the program's conversion makes of the remainder.
   */
  method ResumeRollout(d: Deployment, c: Deadlines.Config, t: Handovers.Task, now: Time, seconds: int64, w: Watch,
      world: World, answers: nat -> Poll) returns (timeout: Option<int64>)
    requires t.accepted <= now
    requires var (remaining, resumable) := Handovers.RemainingWindow(c, t, now);
      resumable ==> Handovers.HandsOn(remaining, seconds)
    modifies d
    ensures timeout.Some? <==> Handovers.RemainingWindow(c, t, now).1
    ensures timeout.None? ==>
      d.writes == old(d.writes) + [Aborted] && d.status == Aborted
      && now > t.accepted + Deadlines.RolloutWindow(c, t.timeout) - 2 * SECOND
    ensures timeout.Some? ==>
      && timeout.value == seconds >= 1
      && now + Deadlines.RolloutWindow(c, seconds) <= t.accepted + Deadlines.RolloutWindow(c, t.timeout)
           + Deadlines.ResolvedDelay(c) + Handovers.Slack(Deadlines.RolloutWindow(c, t.timeout))
      && var polls := seq(Deadlines.RolloutAttempts(c, seconds, Deadlines.ResolvedDelay(c)), answers);
         d.writes == old(d.writes)
           + (match Verdict(w, world.(polls := polls)) case Some(outcome) => [outcome] case None => [])
  {
    var (remaining, resumable) := Handovers.RemainingWindow(c, t, now);
    Handovers.RemainingIs(c, t, now);
    if !resumable {
      d.Record(Aborted);
      return None;
    }
    Handovers.HandoverKeepsDeadline(c, t, now, seconds);
    timeout := Some(seconds);
    var attempts := Deadlines.RolloutAttempts(c, seconds, Deadlines.ResolvedDelay(c));
    d.WaitForRollout(w, world.(polls := seq(attempts, answers)));
  }

  /** While polling goes on, no application fetched so far settles; the one that does ends the loop. */
  lemma {:induction false} SettlingEndsTheLoop(w: Watch, polls: seq<Poll>, n: nat, app: Option<App>, validated: bool)
    requires n < |polls|
    requires app.Some? ==> !Settles(w, app.value)
    ensures var e := PollFrom(w, polls, n, app, validated);
      && (e.error.None? <==> e.app.Some? && Settles(w, e.app.value))
      && (e.error.None? ==> var p := polls[e.last]; !p.cancelled && !p.abandoned && p.fetch == Fetched(e.app.value))
      && (e.error.Some? && e.error.value.ForceRetry? ==> e.app.Some?)
      && (e.error.Some? && e.error.value.AppDegraded? ==> e.app.Some?)
    decreases |polls| - n
  {
    var r := PollOnce(w, polls[n], validated);
    var latest := if r.app.Some? then r.app else app;
    if !(r.error.None? || !Recoverable(r.error.value) || n == |polls| - 1) && !polls[n].deadlineEnds {
      SettlingEndsTheLoop(w, polls, n + 1, latest, r.validated);
    }
  }

  /** The application rolled out without an expected image, and its desired state provably lacks one. */
  predicate ProvablyWrong(w: Watch, p: Poll) {
    && w.refresh && p.imageProvablyAbsent && p.fetch.Fetched? && !p.fetch.app.skipImageValidation
    && !AllPresent(w, p.fetch.app) && p.fetch.app.sync == "Synced" && p.fetch.app.health == "Healthy"
  }

  /**
   Every way the loop ends badly has its cause in the last poll, and running out of attempts takes
   all of them; a poll that finds the task cancelled or given up always is the last.
   */
  lemma {:induction false} EndsForItsReason(w: Watch, polls: seq<Poll>, n: nat, app: Option<App>, validated: bool)
    requires n < |polls|
    ensures var e := PollFrom(w, polls, n, app, validated);
      var p := polls[e.last];
      && (p.cancelled ==> e.error == Some(TaskSuperseded))
      && (!p.cancelled && p.abandoned ==> e.error == Some(LeaseLost))
      && (e.error.Some? ==>
        match e.error.value
        case TaskSuperseded => p.cancelled
        case LeaseLost => !p.cancelled && p.abandoned
        case ImageNotPartOfApp => !validated && ProvablyWrong(w, p)
        case AppDegraded => p.fetch.Fetched? && StatusOf(w, p.fetch.app) == Degraded
          && multiset(p.fetch.app.images) != w.savedImages
        case DeadlineExceeded => p.deadlineEnds && e.last < |polls| - 1
        case ForceRetry => e.last == |polls| - 1 && p.fetch.Fetched?
        case Outside(fault) => p.fetch == FetchFailed(fault) && (fault.notFound || e.last == |polls| - 1)
        case ReplicaDraining => false)
    decreases |polls| - n
  {
    var r := PollOnce(w, polls[n], validated);
    if !(r.error.None? || !Recoverable(r.error.value) || n == |polls| - 1) && !polls[n].deadlineEnds {
      EndsForItsReason(w, polls, n + 1, if r.app.Some? then r.app else app, r.validated);
    }
  }

  /** The poll the loop ended on found the deployment over and good. */
  predicate FinalPollSettles(w: Watch, world: World)
    requires world.polls != [] && world.confirm.Fetched?
  {
    var watch := Saved(w, world.confirm.app);
    var ended := Watched(watch, world.polls, world.late);
    && !world.late
    && var p := world.polls[ended.last];
    && !p.cancelled && !p.abandoned && p.fetch.Fetched? && Settles(watch, p.fetch.app)
  }

  /**
   "Deployed" is recorded exactly when the claim is still held, the replica is not shutting
   down, and the poll the loop ended on itself saw success or fire-and-forget. A run ended by
   its deadline or out of attempts never is.
   */
  lemma DeployedExactlyWhenSeen(w: Watch, world: World)
    requires world.polls != []
    ensures Verdict(w, world) == Some(Deployed) <==>
      !world.lost && !world.draining && ReachesPolling(world) && FinalPollSettles(w, world)
  {
    if ReachesPolling(world) && !world.late {
      var watch := Saved(w, world.confirm.app);
      SettlingEndsTheLoop(watch, world.polls, 0, None, false);
      FinalPollIsLast(watch, world.polls, 0, None, false);
    }
  }

  /** If the poll the loop ended on saw a settled application, that is why it ended. */
  lemma {:induction false} FinalPollIsLast(w: Watch, polls: seq<Poll>, n: nat, app: Option<App>, validated: bool)
    requires n < |polls|
    ensures var e := PollFrom(w, polls, n, app, validated);
      var p := polls[e.last];
      (!p.cancelled && !p.abandoned && p.fetch.Fetched? && Settles(w, p.fetch.app) ==> e.error.None?)
    decreases |polls| - n
  {
    var r := PollOnce(w, polls[n], validated);
    if !(r.error.None? || !Recoverable(r.error.value) || n == |polls| - 1) && !polls[n].deadlineEnds {
      FinalPollIsLast(w, polls, n + 1, if r.app.Some? then r.app else app, r.validated);
    }
  }

  /** The replica is still the one to report: neither the outset, nor the write-back, nor the last poll took it away. */
  predicate InCharge(w: Watch, world: World)
    requires world.polls != []
  {
    && !world.lost && !world.draining && !world.cancelledAtStart
    && !(world.confirm.Fetched? && world.writeBack.GaveUp?)
    && (ReachesPolling(world) && !world.late ==>
          var last := Watched(Saved(w, world.confirm.app), world.polls, false).last;
          !world.polls[last].cancelled && !world.polls[last].abandoned)
  }

  /**
   One final status is written exactly when the replica is in charge: nothing once the claim is
   lost or the shutdown began, nor for a task found superseded or given up on the way.
   */
  lemma WritesExactlyWhenInCharge(w: Watch, world: World)
    requires world.polls != []
    ensures Verdict(w, world).Some? <==> InCharge(w, world)
    ensures Verdict(w, world).Some? ==> Verdict(w, world).value in {Deployed, Failed, Aborted, AppNotFound}
  {
    if ReachesPolling(world) && !world.late {
      EndsForItsReason(Saved(w, world.confirm.app), world.polls, 0, None, false);
    }
  }
}
