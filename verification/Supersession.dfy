/** Which deployments of one application may be in progress together, over every run of the task list. */
module Supersession {
  import opened Common
  import opened TaskTable
  import opened TaskList

  /**
   An admission between its cancellation and its insertion; `point` is the next task id when it
   cancelled, 0 if it could not.
   */
  datatype Admission = Admission(app: string, images: seq<string>, validated: bool, point: nat)

  /** The list, the next id, the admissions under way, and for each task ever added where its admission cancelled. */
  datatype State = State(tasks: seq<Task>, next: nat, open: seq<Admission>, points: map<nat, nat>)

  const START := State([], 0, [], map[])

  datatype Step =
    | Cancel(app: string, images: seq<string>, validated: bool, at: Time)
    | CancelFails(app: string, images: seq<string>, validated: bool)
    | Add(k: nat, at: Time)
    | GiveUp(k: nat)
    | Finish(id: nat, status: Status, at: Time)
    | Sweep(at: Time)

  predicate Enabled(s: State, step: Step) {
    match step
    case Cancel(_, _, _, _) => true
    case CancelFails(_, _, _) => true
    case Add(k, _) => k < |s.open|
    case GiveUp(k) => k < |s.open|
    case Finish(_, status, _) => !status.InProgress?
    case Sweep(_) => true
  }

  function Apply(s: State, step: Step): State
    requires Enabled(s, step)
  {
    match step
    case Cancel(app, images, validated, at) =>
      s.(tasks := AfterCancel(s.tasks, app, images, validated, at),
         open := s.open + [Admission(app, images, validated, s.next)])
    case CancelFails(app, images, validated) => s.(open := s.open + [Admission(app, images, validated, 0)])
    case Add(k, at) =>
      var a := s.open[k];
      State(s.tasks + [Task(s.next, a.app, a.images, a.validated, InProgress, at)], s.next + 1,
            Without(s.open, k), s.points[s.next := a.point])
    case GiveUp(k) => s.(open := Without(s.open, k))
    case Finish(id, status, at) => s.(tasks := AfterStatus(s.tasks, id, status, at))
    case Sweep(at) => s.(tasks := AfterSweep(s.tasks, at))
  }

  predicate CanRun(s: State, steps: seq<Step>)
    decreases |steps|
  {
    steps == [] || (Enabled(s, steps[0]) && CanRun(Apply(s, steps[0]), steps[1..]))
  }

  function After(s: State, steps: seq<Step>): State
    requires CanRun(s, steps)
    decreases |steps|
  {
    if steps == [] then s else After(Apply(s, steps[0]), steps[1..])
  }

  /** Two deployments that compete for one rollout. */
  predicate Rivals(t: Task, u: Task) {
    t.app == u.app && Overlap(t.images, u.images)
  }

  predicate Ordered(s: State) {
    && (forall i :: 0 <= i < |s.tasks| ==> s.tasks[i].id < s.next && s.tasks[i].id in s.points)
    && (forall i, j :: 0 <= i < j < |s.tasks| ==> s.tasks[i].id < s.tasks[j].id)
  }

  /**
   If u, added after t, could have cancelled t and both are in progress, then t was added after u's
   cancellation ran.
   */
  predicate PairFits(s: State, t: Task, u: Task)
    requires u.id in s.points
  {
    t.status.InProgress? && u.status.InProgress? && t.id < u.id && Rivals(t, u)
      && MaySupersede(u.validated, t.validated) ==>
      s.points[u.id] <= t.id
  }

  predicate AdmissionFits(s: State, a: Admission, t: Task) {
    && a.point <= s.next
    && (Cancellable(t, a.app, a.images, a.validated) ==> a.point <= t.id)
  }

  predicate Inv(s: State) {
    && Ordered(s)
    && (forall t, u :: t in s.tasks && u in s.tasks ==> u.id in s.points && PairFits(s, t, u))
    && (forall a, t :: a in s.open && t in s.tasks ==> AdmissionFits(s, a, t))
    && (forall a :: a in s.open ==> a.point <= s.next)
  }

  lemma {:induction false} SweepKeeps(tasks: seq<Task>, now: Time)
    ensures forall u :: u in AfterSweep(tasks, now) ==> exists t :: t in tasks && u in SweepOne(t, now)
    ensures (forall i, j :: 0 <= i < j < |tasks| ==> tasks[i].id < tasks[j].id) ==>
      forall i, j :: 0 <= i < j < |AfterSweep(tasks, now)| ==>
        AfterSweep(tasks, now)[i].id < AfterSweep(tasks, now)[j].id
  {
    if tasks != [] {
      var n := |tasks| - 1;
      SweepKeeps(tasks[..n], now);
      var rest, last := AfterSweep(tasks[..n], now), SweepOne(tasks[n], now);
      forall u | u in rest + last ensures exists t :: t in tasks && u in SweepOne(t, now) {
        if u in rest {
          var t :| t in tasks[..n] && u in SweepOne(t, now);
          assert t in tasks;
        } else {
          assert tasks[n] in tasks;
        }
      }
      if forall i, j :: 0 <= i < j < |tasks| ==> tasks[i].id < tasks[j].id {
        forall i, j | 0 <= i < j < |rest + last| ensures (rest + last)[i].id < (rest + last)[j].id {
          if j == |rest| {
            assert rest[i] in rest;
            var t :| t in tasks[..n] && rest[i] in SweepOne(t, now);
            assert t.id < tasks[n].id;
          }
        }
      }
    }
  }

  /** Each task left over is one that was there, unless it left progress. */
  predicate OnlyLeaves(before: seq<Task>, after: seq<Task>) {
    forall u :: u in after ==> exists t :: t in before && (u == t || (u.id == t.id && !u.status.InProgress?))
  }

  /** Steps that only move tasks out of progress, or out of the list, keep the invariant. */
  lemma LeavingKeepsInv(s: State, s': State)
    requires Inv(s) && Ordered(s') && OnlyLeaves(s.tasks, s'.tasks)
    requires s'.next == s.next && s'.points == s.points && (forall a :: a in s'.open ==> a in s.open)
    ensures Inv(s')
  {
    forall t, u | t in s'.tasks && u in s'.tasks ensures u.id in s'.points && PairFits(s', t, u) {
      var t' :| t' in s.tasks && (t == t' || (t.id == t'.id && !t.status.InProgress?));
      var u' :| u' in s.tasks && (u == u' || (u.id == u'.id && !u.status.InProgress?));
      assert PairFits(s, t', u');
    }
    forall a, t | a in s'.open && t in s'.tasks ensures AdmissionFits(s', a, t) {
      var t' :| t' in s.tasks && (t == t' || (t.id == t'.id && !t.status.InProgress?));
      assert AdmissionFits(s, a, t');
    }
  }

  lemma CancelOnlyLeaves(tasks: seq<Task>, app: string, images: seq<string>, validated: bool, at: Time)
    ensures OnlyLeaves(tasks, AfterCancel(tasks, app, images, validated, at))
    ensures forall t :: t in AfterCancel(tasks, app, images, validated, at) ==> !Cancellable(t, app, images, validated)
  {
    var after := AfterCancel(tasks, app, images, validated, at);
    hide Overlap;
    forall u | u in after
      ensures !Cancellable(u, app, images, validated)
      ensures exists t :: t in tasks && (u == t || (u.id == t.id && !u.status.InProgress?))
    {
      var i :| 0 <= i < |after| && after[i] == u;
      assert tasks[i] in tasks;
    }
  }

  lemma CancelKeepsInv(s: State, app: string, images: seq<string>, validated: bool, at: Time)
    requires Inv(s)
    ensures Inv(Apply(s, Cancel(app, images, validated, at)))
  {
    var s' := Apply(s, Cancel(app, images, validated, at));
    CancelOnlyLeaves(s.tasks, app, images, validated, at);
    var closed := s'.(open := s.open);
    LeavingKeepsInv(s, closed);
    hide Cancellable, OnlyLeaves, CancelOne, Ordered;
    forall t, u | t in s'.tasks && u in s'.tasks ensures u.id in s'.points && PairFits(s', t, u) {
      assert PairFits(closed, t, u);
    }
    forall a, t | a in s'.open && t in s'.tasks ensures AdmissionFits(s', a, t) {
      if a in s.open { assert AdmissionFits(closed, a, t); }
    }
    SameOrder(closed, s');
  }

  lemma SameOrder(s: State, s': State)
    requires Ordered(s) && s'.tasks == s.tasks && s'.next == s.next && s'.points == s.points
    ensures Ordered(s')
  {
  }

  lemma FailureKeepsInv(s: State, app: string, images: seq<string>, validated: bool)
    requires Inv(s)
    ensures Inv(Apply(s, CancelFails(app, images, validated)))
  {
    var s' := Apply(s, CancelFails(app, images, validated));
    forall t, u | t in s'.tasks && u in s'.tasks ensures u.id in s'.points && PairFits(s', t, u) {
      assert PairFits(s, t, u);
    }
    forall a, t | a in s'.open && t in s'.tasks ensures AdmissionFits(s', a, t) {
      if a in s.open { assert AdmissionFits(s, a, t); }
    }
  }

  lemma AddKeepsInv(s: State, k: nat, at: Time)
    requires Inv(s) && k < |s.open|
    ensures Inv(Apply(s, Add(k, at)))
  {
    var s', a := Apply(s, Add(k, at)), s.open[k];
    var added := s'.tasks[|s.tasks|];
    assert a in s.open;
    forall t, u | t in s'.tasks && u in s'.tasks ensures u.id in s'.points && PairFits(s', t, u) {
      if u in s.tasks {
        var i :| 0 <= i < |s.tasks| && s.tasks[i] == u;
        if t in s.tasks { assert PairFits(s, t, u); }
      } else if t in s.tasks {
        var i :| 0 <= i < |s.tasks| && s.tasks[i] == t;
        assert AdmissionFits(s, a, t);
      }
    }
    forall b, t | b in s'.open && t in s'.tasks ensures AdmissionFits(s', b, t) {
      assert b in s.open;
      if t in s.tasks { assert AdmissionFits(s, b, t); }
    }
  }

  lemma StepKeepsInv(s: State, step: Step)
    requires Inv(s) && Enabled(s, step)
    ensures Inv(Apply(s, step))
  {
    match step
    case Cancel(app, images, validated, at) => CancelKeepsInv(s, app, images, validated, at);
    case CancelFails(app, images, validated) => FailureKeepsInv(s, app, images, validated);
    case Add(k, at) => AddKeepsInv(s, k, at);
    case GiveUp(k) => LeavingKeepsInv(s, Apply(s, step));
    case Finish(id, status, at) => FinishKeepsInv(s, id, status, at);
    case Sweep(at) => SweepKeepsInv(s, at);
  }

  lemma FinishKeepsInv(s: State, id: nat, status: Status, at: Time)
    requires Inv(s) && !status.InProgress?
    ensures Inv(Apply(s, Finish(id, status, at)))
  {
    var s' := Apply(s, Finish(id, status, at));
    assert |s'.tasks| == |s.tasks| && forall i :: 0 <= i < |s.tasks| ==> s'.tasks[i].id == s.tasks[i].id;
    forall u | u in s'.tasks ensures exists t :: t in s.tasks && (u == t || (u.id == t.id && !u.status.InProgress?)) {
      var i :| 0 <= i < |s'.tasks| && s'.tasks[i] == u;
      assert s.tasks[i] in s.tasks;
    }
    hide AfterStatus;
    LeavingKeepsInv(s, s');
  }

  lemma SweepKeepsInv(s: State, at: Time)
    requires Inv(s)
    ensures Inv(Apply(s, Sweep(at)))
  {
    var s' := Apply(s, Sweep(at));
    SweepKeeps(s.tasks, at);
    hide AfterSweep;
    forall u | u in s'.tasks
      ensures exists t :: t in s.tasks && (u == t || (u.id == t.id && !u.status.InProgress?))
      ensures u.id < s.next && u.id in s.points
    {
      var t :| t in s.tasks && u in SweepOne(t, at);
      var i :| 0 <= i < |s.tasks| && s.tasks[i] == t;
    }
    LeavingKeepsInv(s, s');
  }

  lemma {:induction false} RunKeepsInv(s: State, steps: seq<Step>)
    requires Inv(s) && CanRun(s, steps)
    ensures Inv(After(s, steps))
    decreases |steps|
  {
    if steps != [] {
      StepKeepsInv(s, steps[0]);
      RunKeepsInv(Apply(s, steps[0]), steps[1..]);
    }
  }

  /**
   In every run, however admissions interleave: two rivals are in progress together only if the
   younger lacks the authority to cancel the older, or the younger's cancellation failed, or the
   older was added between the younger's cancellation and its insertion.
   */
  lemma RivalsInProgress(steps: seq<Step>, i: nat, j: nat)
    requires CanRun(START, steps)
    requires var tasks := After(START, steps).tasks;
      i < j < |tasks| && tasks[i].status.InProgress? && tasks[j].status.InProgress? && Rivals(tasks[i], tasks[j])
    ensures var s := After(START, steps);
      && s.tasks[i].id < s.tasks[j].id && s.tasks[j].id in s.points
      && ((s.tasks[i].validated && !s.tasks[j].validated) || s.points[s.tasks[j].id] <= s.tasks[i].id < s.tasks[j].id)
  {
    RunKeepsInv(START, steps);
    var s := After(START, steps);
    assert s.tasks[i] in s.tasks && s.tasks[j] in s.tasks;
    assert PairFits(s, s.tasks[i], s.tasks[j]);
  }

  /** A rival this cancellation has the authority to cancel, in progress or not. */
  predicate InReach(cancel: Step, t: Task)
    requires cancel.Cancel?
  {
    t.app == cancel.app && Overlap(t.images, cancel.images) && MaySupersede(cancel.validated, t.validated)
  }

  /** Steps that move no task out of progress. */
  predicate Quiet(step: Step) {
    step.Add? || step.GiveUp? || step.CancelFails?
  }

  lemma {:induction false} QuietOnlyAdds(s: State, steps: seq<Step>)
    requires CanRun(s, steps) && (forall k :: 0 <= k < |steps| ==> Quiet(steps[k]))
    ensures var s' := After(s, steps);
      && |s.tasks| <= |s'.tasks| && s'.tasks[..|s.tasks|] == s.tasks && s.next <= s'.next
      && forall i :: |s.tasks| <= i < |s'.tasks| ==> s'.tasks[i].status.InProgress? && s.next <= s'.tasks[i].id
    decreases |steps|
  {
    if steps != [] {
      assert Quiet(steps[0]) && forall k :: 0 <= k < |steps[1..]| ==> Quiet(steps[1..][k]);
      QuietOnlyAdds(Apply(s, steps[0]), steps[1..]);
    }
  }

  /**
   What an admission misses: when it comes to insert, and no task ended since it cancelled, the
   rivals in its reach that are in progress are exactly those inserted since.
   */
  lemma MissedExactlyThoseInsertedSince(s: State, cancel: Step, steps: seq<Step>)
    requires Inv(s) && cancel.Cancel? && CanRun(Apply(s, cancel), steps)
    requires forall k :: 0 <= k < |steps| ==> Quiet(steps[k])
    ensures forall t :: t in After(Apply(s, cancel), steps).tasks && InReach(cancel, t) ==>
      (t.status.InProgress? <==> s.next <= t.id)
  {
    var s' := Apply(s, cancel);
    var end := After(s', steps);
    CancelKeepsInv(s, cancel.app, cancel.images, cancel.validated, cancel.at);
    CancelOnlyLeaves(s.tasks, cancel.app, cancel.images, cancel.validated, cancel.at);
    QuietOnlyAdds(s', steps);
    hide After, CanRun, Overlap, Quiet;
    forall t | t in end.tasks && InReach(cancel, t)
      ensures t.status.InProgress? <==> s.next <= t.id
    {
      var i :| 0 <= i < |end.tasks| && end.tasks[i] == t;
      if i < |s'.tasks| {
        assert s'.tasks[i] == end.tasks[..|s'.tasks|][i] == t;
        assert t in s'.tasks;
      }
    }
  }

  /** No admission starts while another is between its cancellation and its insertion, and no cancellation fails. */
  predicate Serialized(steps: seq<Step>, pending: bool) {
    if steps == [] then true
    else
      match steps[0]
      case Cancel(_, _, _, _) => !pending && Serialized(steps[1..], true)
      case CancelFails(_, _, _) => false
      case Add(_, _) => Serialized(steps[1..], false)
      case GiveUp(_) => Serialized(steps[1..], false)
      case Finish(_, _, _) => Serialized(steps[1..], pending)
      case Sweep(_) => Serialized(steps[1..], pending)
  }

  /** Then every task cancelled right where it was inserted. */
  predicate Prompt(s: State, pending: bool) {
    && |s.open| == (if pending then 1 else 0)
    && (pending ==> s.open[0].point == s.next)
    && (forall id :: id in s.points ==> s.points[id] == id)
  }

  lemma {:induction false} SerializedIsPrompt(s: State, steps: seq<Step>, pending: bool)
    requires CanRun(s, steps) && Serialized(steps, pending) && Prompt(s, pending)
    ensures forall id :: id in After(s, steps).points ==> After(s, steps).points[id] == id
    decreases |steps|
  {
    if steps != [] {
      var pending' := if steps[0].Cancel? then true else if steps[0].Add? || steps[0].GiveUp? then false else pending;
      SerializedIsPrompt(Apply(s, steps[0]), steps[1..], pending');
    }
  }

  /** With serialized admissions, of two rivals in progress the older is validated and the newer is not. */
  lemma OlderValidatedNewerNot(steps: seq<Step>, i: nat, j: nat)
    requires CanRun(START, steps) && Serialized(steps, false)
    requires var tasks := After(START, steps).tasks;
      i < j < |tasks| && tasks[i].status.InProgress? && tasks[j].status.InProgress? && Rivals(tasks[i], tasks[j])
    ensures var tasks := After(START, steps).tasks; tasks[i].validated && !tasks[j].validated
  {
    RivalsInProgress(steps, i, j);
    SerializedIsPrompt(START, steps, false);
  }

  /** Hence never three rivals in progress at once. */
  lemma NeverThreeRivals(steps: seq<Step>, i: nat, j: nat, k: nat)
    requires CanRun(START, steps) && Serialized(steps, false) && i < j < k < |After(START, steps).tasks|
    ensures var tasks := After(START, steps).tasks;
      !(&& tasks[i].status.InProgress? && tasks[j].status.InProgress? && tasks[k].status.InProgress?
        && Rivals(tasks[i], tasks[j]) && Rivals(tasks[j], tasks[k]))
  {
    var tasks := After(START, steps).tasks;
    if tasks[i].status.InProgress? && tasks[j].status.InProgress? && tasks[k].status.InProgress?
       && Rivals(tasks[i], tasks[j]) && Rivals(tasks[j], tasks[k]) {
      OlderValidatedNewerNot(steps, i, j);
      OlderValidatedNewerNot(steps, j, k);
      assert false;
    }
  }

  lemma TwoAdds(s: State, a: Step) returns (end: State)
    requires a == Add(0, 0) && |s.open| == 2
    ensures CanRun(s, [a, a]) && end == After(s, [a, a])
    ensures end == Apply(Apply(s, a), a)
  {
    var one, two := [a], [a, a];
    assert two[1..] == one && one[1..] == [];
    var s1 := Apply(s, a);
    end := Apply(s1, a);
    assert CanRun(end, []) && After(end, []) == end;
    assert CanRun(s1, one) && After(s1, one) == end;
    assert CanRun(s, two) && After(s, two) == end;
  }

  /** Interleaved admissions can leave two validated rivals in progress. */
  lemma InterleavingDefeatsSupersession(app: string, image: string)
    ensures var steps := [Cancel(app, [image], true, 0), Cancel(app, [image], true, 0), Add(0, 0), Add(0, 0)];
      && CanRun(START, steps)
      && var tasks := After(START, steps).tasks;
         && |tasks| == 2 && Rivals(tasks[0], tasks[1])
         && tasks[0].status.InProgress? && tasks[1].status.InProgress? && tasks[0].validated && tasks[1].validated
  {
    var c, a := Cancel(app, [image], true, 0), Add(0, 0);
    var steps := [c, c, a, a];
    assert steps[1..] == [c, a, a] && [c, a, a][1..] == [a, a];
    var s2 := Apply(Apply(START, c), c);
    var s4 := TwoAdds(s2, a);
    assert image in s4.tasks[0].images && image in s4.tasks[1].images;
  }

  /** A task that left progress never returns to it: whatever happens later, no task of its id is in progress again. */
  lemma {:induction false} NoReentry(s: State, steps: seq<Step>, id: nat)
    requires Inv(s) && CanRun(s, steps) && id < s.next
    requires forall t :: t in s.tasks && t.id == id ==> !t.status.InProgress?
    ensures forall t :: t in After(s, steps).tasks && t.id == id ==> !t.status.InProgress?
    decreases |steps|
  {
    if steps != [] {
      StepKeepsInv(s, steps[0]);
      StepNeverReenters(s, steps[0], id);
      NoReentry(Apply(s, steps[0]), steps[1..], id);
    }
  }

  lemma StepNeverReenters(s: State, step: Step, id: nat)
    requires Enabled(s, step) && id < s.next
    requires forall t :: t in s.tasks && t.id == id ==> !t.status.InProgress?
    ensures forall t :: t in Apply(s, step).tasks && t.id == id ==> !t.status.InProgress?
    ensures id < Apply(s, step).next
  {
    var s' := Apply(s, step);
    if step.Sweep? { SweepKeeps(s.tasks, step.at); }
    forall u | u in s'.tasks && u.id == id ensures !u.status.InProgress? {
      if step.Sweep? {
        var t :| t in s.tasks && u in SweepOne(t, step.at);
      } else if step.Cancel? || step.Finish? {
        var i :| 0 <= i < |s'.tasks| && s'.tasks[i] == u;
        assert s.tasks[i] in s.tasks;
      }
    }
  }

  /** A cancellation leaves nothing behind that it may cancel, and touches nothing else. */
  lemma CancellationIsComplete(tasks: seq<Task>, app: string, images: seq<string>, validated: bool, now: Time)
    ensures var after := AfterCancel(tasks, app, images, validated, now);
      && (forall t :: t in after ==> !Cancellable(t, app, images, validated))
      && (forall i :: 0 <= i < |tasks| && !Cancellable(tasks[i], app, images, validated) ==> after[i] == tasks[i])
      && (CountCancellable(tasks, app, images, validated) == 0 <==> after == tasks)
  {
    var after := AfterCancel(tasks, app, images, validated, now);
    CountZero(tasks, app, images, validated);
    if after == tasks {
      forall i | 0 <= i < |tasks| ensures !Cancellable(tasks[i], app, images, validated) {
        assert after[i] == tasks[i];
      }
    }
  }

  /** Over any run, what an unvalidated deployment cancels was not validated. */
  lemma UnvalidatedSparesValidated(s: State, step: Step, i: nat)
    requires Enabled(s, step) && step.Cancel? && !step.validated && i < |s.tasks| && s.tasks[i].validated
    ensures i < |Apply(s, step).tasks| && Apply(s, step).tasks[i] == s.tasks[i]
  {
  }

  /**
   So a validated deployment and a younger unvalidated one of the same image run side by side, in
   whatever order each admission takes its two steps.
   */
  lemma ValidatedOutlivesUnvalidated(app: string, image: string)
    ensures var steps := [Cancel(app, [image], true, 0), Add(0, 0), Cancel(app, [image], false, 0), Add(0, 0)];
      && CanRun(START, steps) && Serialized(steps, false)
      && var tasks := After(START, steps).tasks;
         && |tasks| == 2 && Rivals(tasks[0], tasks[1])
         && tasks[0].status.InProgress? && tasks[1].status.InProgress? && tasks[0].validated && !tasks[1].validated
  {
    var first, second, add := Cancel(app, [image], true, 0), Cancel(app, [image], false, 0), Add(0, 0);
    var steps := [first, add, second, add];
    assert steps[1..] == [add, second, add] && [add, second, add][1..] == [second, add];
    assert [second, add][1..] == [add] && [add][1..] == [];
    var s2 := Apply(Apply(START, first), add);
    assert s2.tasks == [Task(0, app, [image], true, InProgress, 0)] && s2.open == [];
    var s3 := Apply(s2, second);
    assert s3.tasks == s2.tasks && |s3.open| == 1;
    var s4 := Apply(s3, add);
    assert CanRun(s4, []) && After(s4, []) == s4 && Serialized([], false);
    assert CanRun(s3, [add]) && After(s3, [add]) == s4 && Serialized([add], true);
    assert CanRun(s2, [second, add]) && After(s2, [second, add]) == s4 && Serialized([second, add], false);
    assert image in s4.tasks[0].images && image in s4.tasks[1].images;
  }

  lemma {:induction false} CountZero(tasks: seq<Task>, app: string, images: seq<string>, validated: bool)
    ensures CountCancellable(tasks, app, images, validated) == 0
      <==> forall i :: 0 <= i < |tasks| ==> !Cancellable(tasks[i], app, images, validated)
  {
    if tasks != [] {
      var n := |tasks| - 1;
      CountZero(tasks[..n], app, images, validated);
      assert forall i :: 0 <= i < n ==> tasks[..n][i] == tasks[i];
    }
  }
}
