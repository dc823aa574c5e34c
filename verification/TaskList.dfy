/** The in-memory task list and the operations on it. */
module TaskList {
  import opened Common
  import opened TaskTable

  /** A deployment task; image names come without their tags. */
  datatype Task = Task(id: nat, app: string, images: seq<string>, validated: bool, status: Status, updated: Time)

  const STALE_SECONDS: Time := 3600 * SECOND

  predicate MaySupersede(newValidated: bool, inFlightValidated: bool) {
    newValidated || !inFlightValidated
  }

  predicate Overlap(a: seq<string>, b: seq<string>) {
    exists name :: name in a && name in b
  }

  method ImageNamesOverlap(a: seq<string>, b: seq<string>) returns (overlap: bool)
    ensures overlap == Overlap(a, b)
    ensures overlap <==> exists name :: name in a && name in b
  {
    var names: set<string> := {};
    for i := 0 to |a|
      invariant forall name :: name in names <==> name in a[..i]
    {
      names := names + {a[i]};
    }
    assert a[..|a|] == a;
    for j := 0 to |b|
      invariant forall name :: name in b[..j] ==> name !in a
    {
      if b[j] in names {
        assert b[j] in a && b[j] in b;
        return true;
      }
    }
    assert b[..|b|] == b;
    return false;
  }

  /** What a deployment of these images may cancel. */
  predicate Cancellable(t: Task, app: string, images: seq<string>, validated: bool) {
    t.app == app && t.status.InProgress? && MaySupersede(validated, t.validated) && Overlap(t.images, images)
  }

  function CancelOne(t: Task, app: string, images: seq<string>, validated: bool, now: Time): Task {
    if Cancellable(t, app, images, validated) then t.(status := Cancelled, updated := now) else t
  }

  function AfterCancel(tasks: seq<Task>, app: string, images: seq<string>, validated: bool, now: Time): (r: seq<Task>)
    ensures |r| == |tasks|
    ensures forall i :: 0 <= i < |r| ==> r[i] == CancelOne(tasks[i], app, images, validated, now)
  {
    seq(|tasks|, i requires 0 <= i < |tasks| => CancelOne(tasks[i], app, images, validated, now))
  }

  function CountCancellable(tasks: seq<Task>, app: string, images: seq<string>, validated: bool): nat {
    if tasks == [] then 0
    else
      CountCancellable(tasks[..|tasks| - 1], app, images, validated)
      + (if Cancellable(tasks[|tasks| - 1], app, images, validated) then 1 else 0)
  }

  /** The position of the first task with this id, or |tasks|. */
  function Find(tasks: seq<Task>, id: nat): (i: nat)
    ensures i <= |tasks|
    ensures i < |tasks| ==> tasks[i].id == id
    ensures forall j :: 0 <= j < i ==> tasks[j].id != id
  {
    if tasks == [] || tasks[0].id == id then 0 else 1 + Find(tasks[1..], id)
  }

  function AfterStatus(tasks: seq<Task>, id: nat, status: Status, now: Time): seq<Task> {
    var i := Find(tasks, id);
    if i < |tasks| then tasks[i := tasks[i].(status := status, updated := now)] else tasks
  }

  predicate Stale(t: Task, now: Time) {
    t.status.InProgress? && t.updated + STALE_SECONDS < now
  }

  function SweepOne(t: Task, now: Time): seq<Task> {
    if t.status.AppNotFound? then [] else [if Stale(t, now) then t.(status := Aborted) else t]
  }

  function AfterSweep(tasks: seq<Task>, now: Time): seq<Task> {
    if tasks == [] then [] else AfterSweep(tasks[..|tasks| - 1], now) + SweepOne(tasks[|tasks| - 1], now)
  }

  class InMemoryState {
    var tasks: seq<Task>

    constructor ()
      ensures tasks == []
    {
      tasks := [];
    }

    method AddTask(task: Task, id: nat, now: Time) returns (added: Task)
      modifies this
      ensures added == task.(id := id, status := InProgress, updated := now)
      ensures tasks == old(tasks) + [added]
    {
      added := task.(id := id, status := InProgress, updated := now);
      tasks := tasks + [added];
    }

    /** False when no task carries the id. */
    method SetTaskStatus(id: nat, status: Status, now: Time) returns (found: bool)
      modifies this
      ensures found <==> exists t :: t in old(tasks) && t.id == id
      ensures tasks == AfterStatus(old(tasks), id, status, now)
      ensures |tasks| == |old(tasks)|
      ensures forall j :: 0 <= j < |tasks| ==>
        tasks[j] == if old(tasks)[j].id == id && (forall i :: 0 <= i < j ==> old(tasks)[i].id != id)
                    then old(tasks)[j].(status := status, updated := now) else old(tasks)[j]
    {
      for idx := 0 to |tasks|
        invariant tasks == old(tasks)
        invariant forall j :: 0 <= j < idx ==> tasks[j].id != id
      {
        if tasks[idx].id == id {
          assert tasks[idx] in tasks;
          FirstFound(tasks, id, idx);
          tasks := tasks[idx := tasks[idx].(status := status, updated := now)];
          return true;
        }
      }
      FirstFound(tasks, id, |tasks|);
      return false;
    }

    /**
     An unvalidated deployment leaves every validated one alone; otherwise whatever is in progress
     for the application and shares an image name with it ends here.
     */
    method CancelInProgressTasks(app: string, images: seq<string>, validated: bool, now: Time) returns (count: nat)
      modifies this
      ensures tasks == AfterCancel(old(tasks), app, images, validated, now)
      ensures count == CountCancellable(old(tasks), app, images, validated)
      ensures |tasks| == |old(tasks)|
      ensures forall j :: 0 <= j < |tasks| ==>
        tasks[j] ==
          var t := old(tasks)[j];
          if t.app == app && t.status == InProgress && (validated || !t.validated)
             && exists name :: name in t.images && name in images
          then t.(status := Cancelled, updated := now) else t
      ensures count == |set j | 0 <= j < |tasks| && tasks[j].status != old(tasks)[j].status|
    {
      count := 0;
      for idx := 0 to |tasks|
        invariant |tasks| == |old(tasks)|
        invariant forall j :: 0 <= j < idx ==> tasks[j] == CancelOne(old(tasks)[j], app, images, validated, now)
        invariant forall j :: idx <= j < |tasks| ==> tasks[j] == old(tasks)[j]
        invariant count == CountCancellable(old(tasks)[..idx], app, images, validated)
      {
        assert old(tasks)[..idx + 1][..idx] == old(tasks)[..idx];
        var t := tasks[idx];
        var overlap := ImageNamesOverlap(t.images, images);
        if t.app == app && t.status.InProgress? && MaySupersede(validated, t.validated) && overlap {
          tasks := tasks[idx := t.(status := Cancelled, updated := now)];
          count := count + 1;
        }
      }
      assert old(tasks)[..|old(tasks)|] == old(tasks);
      EndedCount(old(tasks), app, images, validated, now);
    }

    method ProcessObsoleteTasks(now: Time)
      modifies this
      ensures tasks == AfterSweep(old(tasks), now)
      ensures exists origin :: LeftBySweep(old(tasks), now, tasks, origin)
    {
      var updated: seq<Task> := [];
      for i := 0 to |tasks|
        invariant tasks == old(tasks)
        invariant updated == AfterSweep(tasks[..i], now)
      {
        assert tasks[..i + 1][..i] == tasks[..i];
        var task := tasks[i];
        if task.status.AppNotFound? {
          continue;
        }
        if task.status.InProgress? && task.updated + STALE_SECONDS < now {
          task := task.(status := Aborted);
        }
        updated := updated + [task];
      }
      assert tasks[..|tasks|] == tasks;
      ghost var origin := SweepIs(tasks, now);
      tasks := updated;
    }
  }

  function Ended(tasks: seq<Task>, app: string, images: seq<string>, validated: bool): set<nat> {
    set j | 0 <= j < |tasks| && Cancellable(tasks[j], app, images, validated)
  }

  lemma {:induction false} CountIs(tasks: seq<Task>, app: string, images: seq<string>, validated: bool)
    ensures CountCancellable(tasks, app, images, validated) == |Ended(tasks, app, images, validated)|
  {
    hide Cancellable;
    if tasks == [] {
      assert Ended(tasks, app, images, validated) == {};
    } else {
      var n := |tasks| - 1;
      CountIs(tasks[..n], app, images, validated);
      assert Ended(tasks, app, images, validated) ==
        Ended(tasks[..n], app, images, validated) + if Cancellable(tasks[n], app, images, validated) then {n} else {};
    }
  }

  /** The count is of the tasks the cancellation ended. */
  lemma EndedCount(tasks: seq<Task>, app: string, images: seq<string>, validated: bool, now: Time)
    ensures var after := AfterCancel(tasks, app, images, validated, now);
      CountCancellable(tasks, app, images, validated) ==
        |set j | 0 <= j < |tasks| && after[j].status != tasks[j].status|
  {
    var after := AfterCancel(tasks, app, images, validated, now);
    CountIs(tasks, app, images, validated);
    hide Overlap, MaySupersede;
    assert Ended(tasks, app, images, validated) == set j | 0 <= j < |tasks| && after[j].status != tasks[j].status;
  }

  lemma SweepOneIs(t: Task, now: Time)
    ensures SweepOne(t, now) ==
      if t.status == AppNotFound then []
      else [if t.status == InProgress && t.updated + HOUR < now then t.(status := Aborted) else t]
  {
  }

  /**
   Everything but the unknown applications is left, in order, with the tasks in progress that nobody
   touched for an hour aborted; origin says where each was.
   */
  ghost predicate LeftBySweep(tasks: seq<Task>, now: Time, after: seq<Task>, origin: seq<nat>) {
    && |origin| == |after|
    && (forall k :: 0 <= k < |origin| ==> origin[k] < |tasks|)
    && (forall j, k :: 0 <= j < k < |origin| ==> origin[j] < origin[k])
    && (forall i :: 0 <= i < |tasks| ==> (i in origin <==> tasks[i].status != AppNotFound))
    && (forall k :: 0 <= k < |origin| ==>
          var t := tasks[origin[k]];
          after[k] == if t.status == InProgress && t.updated + HOUR < now then t.(status := Aborted) else t)
  }

  lemma OneDropped(tasks: seq<Task>, now: Time, after: seq<Task>, origin: seq<nat>, t: Task)
    requires LeftBySweep(tasks, now, after, origin) && t.status == AppNotFound
    ensures LeftBySweep(tasks + [t], now, after, origin)
  {
  }

  lemma OneLeft(tasks: seq<Task>, now: Time, after: seq<Task>, origin: seq<nat>, t: Task, u: Task)
    requires LeftBySweep(tasks, now, after, origin) && t.status != AppNotFound
    requires u == if t.status == InProgress && t.updated + HOUR < now then t.(status := Aborted) else t
    ensures LeftBySweep(tasks + [t], now, after + [u], origin + [|tasks|])
  {
    var all := tasks + [t];
    forall i | 0 <= i < |all| ensures i in origin + [|tasks|] <==> all[i].status != AppNotFound {
      if i < |tasks| { assert all[i] == tasks[i]; } else { assert i == (origin + [|tasks|])[|origin|]; }
    }
  }

  /** What the sweep leaves, task by task. */
  lemma {:induction false} SweepIs(tasks: seq<Task>, now: Time) returns (origin: seq<nat>)
    ensures LeftBySweep(tasks, now, AfterSweep(tasks, now), origin)
  {
    if tasks == [] {
      origin := [];
    } else {
      var n := |tasks| - 1;
      origin := SweepIs(tasks[..n], now);
      SweepOneIs(tasks[n], now);
      assert tasks[..n] + [tasks[n]] == tasks;
      hide SweepOne, LeftBySweep;
      var before := AfterSweep(tasks[..n], now);
      if tasks[n].status == AppNotFound {
        assert before + [] == before;
        OneDropped(tasks[..n], now, before, origin, tasks[n]);
      } else {
        OneLeft(tasks[..n], now, before, origin, tasks[n], SweepOne(tasks[n], now)[0]);
        origin := origin + [n];
      }
    }
  }

  lemma FirstFound(tasks: seq<Task>, id: nat, i: nat)
    requires i <= |tasks| && (i < |tasks| ==> tasks[i].id == id)
    requires forall j :: 0 <= j < i ==> tasks[j].id != id
    ensures Find(tasks, id) == i
  {
  }
}
