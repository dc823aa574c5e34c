/** What a watch ends with and what is recorded for it, read off the polls and the answers alone. */
module Verdicts {
  import opened Common
  import opened TaskTable
  import opened Rollout

  /** Every expected image runs, under its own name or through the registry proxy. */
  predicate Runs(w: Watch, app: App) {
    forall image :: image in w.images ==>
      image in app.images || (w.proxy != "" && w.proxy + "/" + image in app.images)
  }

  predicate Good(w: Watch, app: App) {
    || app.fireAndForget
    || (&& Runs(w, app) && app.sync == "Synced"
        && (app.health == "Healthy" || (app.health == "Suspended" && w.acceptSuspended)))
  }

  /** It took the images and broke, and no sync is pending that might mend it. */
  predicate Broken(w: Watch, app: App) {
    Runs(w, app) && app.health == "Degraded" && app.sync != "OutOfSync" && multiset(app.images) != w.savedImages
  }

  /** It settled without an expected image, which is when its desired state is looked at. */
  predicate Settled(w: Watch, app: App) {
    !app.fireAndForget && !Runs(w, app) && app.sync == "Synced" && app.health == "Healthy"
  }

  /** The poll looks at the desired state, if none did before. */
  predicate Looks(w: Watch, p: Poll) {
    !p.cancelled && !p.abandoned && w.refresh && p.fetch.Fetched? && Settled(w, p.fetch.app)
  }

  predicate Proves(w: Watch, p: Poll) {
    Looks(w, p) && p.imageProvablyAbsent && !p.fetch.app.skipImageValidation
  }

  /** The poll is the last, whatever the attempts and the deadline allow. */
  predicate Concludes(w: Watch, p: Poll, unseen: bool) {
    || p.cancelled || p.abandoned
    || (match p.fetch
        case FetchFailed(fault) => fault.notFound
        case Fetched(app) => Good(w, app) || Broken(w, app) || (unseen && Proves(w, p)))
  }

  /** How the watch ends with this poll. */
  function Conclusion(w: Watch, p: Poll, unseen: bool, attemptsSpent: bool): Option<Error> {
    if p.cancelled then Some(TaskSuperseded)
    else if p.abandoned then Some(LeaseLost)
    else
      match p.fetch
      case FetchFailed(fault) => Some(if fault.notFound || attemptsSpent then Outside(fault) else DeadlineExceeded)
      case Fetched(app) =>
        if Good(w, app) then None
        else if unseen && Proves(w, p) then Some(ImageNotPartOfApp)
        else if Broken(w, app) then Some(AppDegraded)
        else Some(if attemptsSpent then ForceRetry else DeadlineExceeded)
  }

  /** Each status, in the order the checks come. */
  lemma StatusMeans(w: Watch, app: App)
    ensures StatusOf(w, app) ==
      if !Runs(w, app) then NotAvailable
      else if app.health == "Degraded" && app.sync != "OutOfSync" then Degraded
      else if app.sync != "Synced" then NotSynced
      else if app.health == "Healthy" || (app.health == "Suspended" && w.acceptSuspended) then Success
      else NotHealthy
    ensures Settles(w, app) <==> Good(w, app)
  {
    var degraded, suspended, healthy := "Degraded", "Suspended", "Healthy";
    assert |degraded| == 8 && |suspended| == 9 && |healthy| == 7;
    var synced, unsynced := "Synced", "OutOfSync";
    assert |synced| == 6 && |unsynced| == 9;
  }

  /** One poll against its conclusion. */
  lemma PollConcludes(w: Watch, p: Poll, validated: bool)
    ensures var r := PollOnce(w, p, validated);
      && r.validated == (validated || Looks(w, p))
      && (r.error.None? || !Recoverable(r.error.value) <==> Concludes(w, p, !validated))
      && r.error == Conclusion(w, p, !validated, true)
      && Conclusion(w, p, !validated, false) ==
         (if Concludes(w, p, !validated) then r.error else Some(DeadlineExceeded))
      && r.app == (if !p.cancelled && !p.abandoned && p.fetch.Fetched? then Some(p.fetch.app) else None)
  {
    if p.fetch.Fetched? { StatusMeans(w, p.fetch.app); }
    var degraded, healthy := "Degraded", "Healthy";
    assert |degraded| == 8 && |healthy| == 7;
  }

  /** No poll before this one looked at the desired state. */
  predicate Unseen(w: Watch, polls: seq<Poll>, n: nat)
    requires n <= |polls|
  {
    forall m :: 0 <= m < n ==> !Looks(w, polls[m])
  }

  /** Some poll up to this one fetched the application. */
  predicate Observed(polls: seq<Poll>, last: nat)
    requires last < |polls|
  {
    exists m :: 0 <= m <= last && Fetches(polls[m])
  }

  predicate Fetches(p: Poll) {
    !p.cancelled && !p.abandoned && p.fetch.Fetched?
  }

  /** The first poll that concludes, or after which the deadline ends the wait, or the last there is. */
  ghost predicate IsLast(w: Watch, polls: seq<Poll>, last: nat) {
    && last < |polls|
    && (forall m :: 0 <= m < last ==> !Concludes(w, polls[m], Unseen(w, polls, m)) && !polls[m].deadlineEnds)
    && (Concludes(w, polls[last], Unseen(w, polls, last)) || polls[last].deadlineEnds || last == |polls| - 1)
  }

  /** The watch stops at the first poll that concludes, and ends as that poll says. */
  lemma {:induction false} PollingConcludes(w: Watch, polls: seq<Poll>, n: nat, app: Option<App>)
    requires n < |polls|
    requires forall m :: 0 <= m < n ==> !Concludes(w, polls[m], Unseen(w, polls, m)) && !polls[m].deadlineEnds
    requires app.Some? <==> exists m :: 0 <= m < n && Fetches(polls[m])
    ensures var ended := PollFrom(w, polls, n, app, !Unseen(w, polls, n));
      && IsLast(w, polls, ended.last)
      && ended.error == Conclusion(w, polls[ended.last], Unseen(w, polls, ended.last), ended.last == |polls| - 1)
      && (ended.app.Some? <==> Observed(polls, ended.last))
    decreases |polls| - n
  {
    var validated := !Unseen(w, polls, n);
    var r := PollOnce(w, polls[n], validated);
    PollConcludes(w, polls[n], validated);
    var latest := if r.app.Some? then r.app else app;
    assert latest.Some? <==> exists m :: 0 <= m < n + 1 && Fetches(polls[m]);
    hide PollOnce, Concludes, Conclusion, Looks, Recoverable;
    if !(r.error.None? || !Recoverable(r.error.value) || n == |polls| - 1) && !polls[n].deadlineEnds {
      assert r.validated == !Unseen(w, polls, n + 1);
      PollingConcludes(w, polls, n + 1, latest);
    }
  }

  /** What the write-back and the polls of this world are watched for. */
  function Watching(w: Watch, world: World): Watch
    requires world.confirm.Fetched?
  {
    w.(savedImages := multiset(world.confirm.app.images))
  }

  /** The watch was begun, and this poll was its last. */
  ghost predicate PolledUpTo(w: Watch, world: World, last: nat) {
    && !world.cancelledAtStart && world.confirm.Fetched? && world.writeBack.WrittenBack? && !world.late
    && IsLast(Watching(w, world), world.polls, last)
  }

  /** An error that ended the watch where no state of the application is known to report instead. */
  ghost predicate EndedBy(w: Watch, world: World, e: Error) {
    && !world.cancelledAtStart
    && if world.confirm.FetchFailed? then e == Outside(world.confirm.fault)
       else if world.writeBack.WriteFailed? then e == Outside(world.writeBack.fault)
       else if world.writeBack.GaveUp? then false
       else if world.late then e == DeadlineExceeded
       else exists last: nat :: PolledUpTo(w, world, last) && EndsPolling(w, world, last, e)
  }

  /** A deadline, a timeout or a cancellation counts only while the application was never fetched. */
  ghost predicate EndsPolling(w: Watch, world: World, last: nat, e: Error)
    requires PolledUpTo(w, world, last)
  {
    var watch := Watching(w, world);
    && (e.Outside? || e.DeadlineExceeded? || e.ImageNotPartOfApp?)
    && Conclusion(watch, world.polls[last], Unseen(watch, world.polls, last), last == |world.polls| - 1) == Some(e)
    && (Observed(world.polls, last) ==>
          !e.DeadlineExceeded? && (e.Outside? ==> !e.fault.timedOut && !e.fault.canceled))
  }

  predicate UnknownApplication(e: Error) {
    e.Outside? && e.fault.notFound
  }

  /** The API, or the time, gave out: nothing is known of the application itself. */
  predicate Unreachable(e: Error) {
    || e.DeadlineExceeded?
    || (&& e.Outside? && !e.fault.notFound
        && (e.fault.network || e.fault.timedOut || e.fault.canceled || e.fault.statusCode >= 500))
  }

  lemma OneLast(w: Watch, polls: seq<Poll>, a: nat, b: nat)
    requires IsLast(w, polls, a) && IsLast(w, polls, b)
    ensures a == b
  {
  }

  /** Where polling was reached, its last poll and what is reported of it. */
  lemma PollingEnds(w: Watch, world: World) returns (last: nat)
    requires ReachesPolling(world) && !world.late && world.polls != []
    ensures PolledUpTo(w, world, last)
    ensures last == Watched(Saved(w, world.confirm.app), world.polls, false).last
    ensures var watch := Watching(w, world);
      var error := Conclusion(watch, world.polls[last], Unseen(watch, world.polls, last), last == |world.polls| - 1);
      Awaited(w, world).1 ==
        if Observed(world.polls, last) && error.Some? && StateObserved(error.value) then None else error
  {
    var watch := Watching(w, world);
    assert Unseen(watch, world.polls, 0);
    PollingConcludes(watch, world.polls, 0, None);
    last := Watched(watch, world.polls, false).last;
  }

  /** The errors the watch reports to a replica still in charge are those that ended it. */
  lemma ReportedIsWhatEnded(w: Watch, world: World, e: Error)
    requires world.polls != [] && InCharge(w, world)
    ensures Awaited(w, world).1 == Some(e) <==> EndedBy(w, world, e)
  {
    if ReachesPolling(world) && !world.late {
      var last := PollingEnds(w, world);
      forall other: nat | PolledUpTo(w, world, other) ensures other == last {
        OneLast(Watching(w, world), world.polls, last, other);
      }
      hide Awaited, IsLast, Watched;
      var watch := Watching(w, world);
      var attemptsSpent := last == |world.polls| - 1;
      if Conclusion(watch, world.polls[last], Unseen(watch, world.polls, last), attemptsSpent) == Some(ForceRetry) {
        assert Fetches(world.polls[last]) && Observed(world.polls, last);
      }
      assert EndedBy(w, world, e) <==> EndsPolling(w, world, last, e);
    }
  }

  /** The last poll found the application running every expected image, or asking for no more than to be told. */
  ghost predicate SeenGood(w: Watch, world: World) {
    exists last: nat :: PolledUpTo(w, world, last) && Fetches(world.polls[last])
      && Good(Watching(w, world), world.polls[last].fetch.app)
  }

  lemma DeployedIsSeenGood(w: Watch, world: World)
    requires world.polls != []
    ensures Verdict(w, world) == Some(Deployed) <==> InCharge(w, world) && SeenGood(w, world)
  {
    DeployedExactlyWhenSeen(w, world);
    WritesExactlyWhenInCharge(w, world);
    if ReachesPolling(world) && !world.late {
      var last := PollingEnds(w, world);
      forall other: nat | PolledUpTo(w, world, other) ensures other == last {
        OneLast(Watching(w, world), world.polls, last, other);
      }
      var p := world.polls[last];
      if p.fetch.Fetched? { StatusMeans(Watching(w, world), p.fetch.app); }
      hide Verdict, Awaited, IsLast, Settles, Good, Watched;
      assert FinalPollSettles(w, world) <==> Fetches(p) && Settles(Watching(w, world), p.fetch.app);
      assert SeenGood(w, world) <==> Fetches(p) && Good(Watching(w, world), p.fetch.app);
    }
  }

  /**
   Which status a replica in charge records, read off the answers it got. An unknown application is
   recorded as such; "aborted" means the API or the time gave out before the application was ever
   seen, "deployed" that the last poll saw it good, and "failed" is everything else.
   */
  lemma RecordsWhatEnded(w: Watch, world: World)
    requires world.polls != []
    ensures var v := Verdict(w, world);
      && (v.Some? <==> InCharge(w, world))
      && (v == Some(Deployed) <==> InCharge(w, world) && SeenGood(w, world))
      && (v == Some(AppNotFound) <==> InCharge(w, world) && exists e :: EndedBy(w, world, e) && UnknownApplication(e))
      && (v == Some(Aborted) <==> InCharge(w, world) && exists e :: EndedBy(w, world, e) && Unreachable(e))
      && (v.Some? ==> v.value in {Deployed, AppNotFound, Aborted, Failed})
  {
    WritesExactlyWhenInCharge(w, world);
    DeployedIsSeenGood(w, world);
    if InCharge(w, world) {
      forall e ensures Awaited(w, world).1 == Some(e) <==> EndedBy(w, world, e) {
        ReportedIsWhatEnded(w, world, e);
      }
      hide InCharge, EndedBy, SeenGood, Awaited;
      var (app, err) := Awaited(w, world);
      if err.Some? { assert EndedBy(w, world, err.value); }
    }
  }
}
