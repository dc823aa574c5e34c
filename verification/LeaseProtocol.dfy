/**
 Any number of replicas over one shared table and one clock. A task's claims are
 numbered: accepting it is claim 1, and every sweep that takes it over starts the next.
 The numbers are bookkeeping of the model; the code compares owners only.

 Every statement of the store is one step, and so is every instant at which a monitor
 reads its clock, so anything may happen between issuing a renewal, its execution and
 its answer.
 */
module LeaseProtocol {
  import opened Common
  import opened TaskTable
  import opened LeaseGuard

  /**
   What the code does not enforce itself: how late after its claim a monitor stamps its
   guard, and how late after the check of its age a renewal still reaches the store.
   */
  datatype Params = Params(maxLag: nat, maxStatement: nat)

  /** Where the renewal goroutine of a monitor is. */
  datatype Renewal =
    | Idle
    | Checked(at: Time)
    | Issued(at: Time, stamp: Time)
    | Executed(stamp: Time, held: bool)

  datatype Phase = Accepted | Claimed | Watching | Ended

  datatype Monitor = Monitor(
    owner: Owner,
    phase: Phase,
    anchor: Time,       // when its claim was made; for an unclaimed row, when the row was created
    guard: Guard,
    renewal: Renewal,
    strays: set<Time>,  // statements reported as failed that may still reach the store
    wrote: bool)

  /** A sweep between locking its rows and committing. `at` is its transaction's now(). */
  datatype Sweep = Sweep(owner: Owner, at: Time, ids: set<TaskId>)

  type Key = (TaskId, nat)

  datatype State = State(
    now: Time,
    rows: Rows,
    epochs: map<TaskId, nat>,
    monitors: map<Key, Monitor>,
    sweeps: map<nat, Sweep>,
    released: set<Owner>)
  {
    ghost predicate Locked(id: TaskId) {
      exists w :: w in sweeps && id in sweeps[w].ids
    }

    function With(key: Key, m: Monitor): State {
      this.(monitors := monitors[key := m])
    }

    predicate Active(key: Key) {
      key in monitors && monitors[key].owner !in released
    }

    /** A monitor that still believes it holds its claim. */
    predicate Live(key: Key) {
      && Active(key)
      && (monitors[key].phase.Watching? || monitors[key].phase.Ended?)
      && !Lost(monitors[key].guard, now)
    }

    predicate Current(key: Key) {
      key.0 in epochs && key.1 == epochs[key.0]
    }
  }

  datatype Step =
    | Advance(elapsed: nat)
    | Admit(id: TaskId, owner: Owner)
    | ClaimAdmitted(id: TaskId)
    | StartGuard(key: Key)
    | Check(key: Key)
    | Issue(key: Key)
    | Execute(key: Key)
    | ExecuteStray(key: Key, at: Time)
    | Answer(key: Key, reached: bool)
    | Finish(key: Key, status: Status)
    | AbandonedAbort(key: Key)
    | StopWatching(key: Key)
    | Cancel(id: TaskId)
    | AbortStale(id: TaskId)
    | Forget(id: TaskId)
    | Retire(id: TaskId, days: nat)
    | Lock(sweep: nat, owner: Owner, limit: nat, ids: set<TaskId>)
    | Commit(sweep: nat)
    | Rollback(sweep: nat)
    | ReleaseAll(owner: Owner)

  const INIT := State(0, map[], map[], map[], map[], {})

  ghost predicate Enabled(p: Params, s: State, step: Step) {
    match step
    case Advance(_) => true
    case Admit(id, owner) => id !in s.epochs && owner !in s.released
    case ClaimAdmitted(id) =>
      && s.Active((id, 1)) && s.monitors[(id, 1)].phase.Accepted?
      && s.now <= s.monitors[(id, 1)].anchor + p.maxLag && !s.Locked(id)
    case StartGuard(key) =>
      && s.Active(key) && (s.monitors[key].phase.Accepted? || s.monitors[key].phase.Claimed?)
      && s.now <= s.monitors[key].anchor + p.maxLag
    case Check(key) => key in s.monitors && s.monitors[key].phase.Watching? && s.monitors[key].renewal.Idle?
      && !s.monitors[key].guard.lost
    case Issue(key) => key in s.monitors && s.monitors[key].renewal.Checked?
    case Execute(key) =>
      && key in s.monitors && s.monitors[key].renewal.Issued?
      && s.now <= s.monitors[key].renewal.at + p.maxStatement && !s.Locked(key.0)
    case ExecuteStray(key, at) =>
      key in s.monitors && at in s.monitors[key].strays && s.now <= at + p.maxStatement && !s.Locked(key.0)
    case Answer(key, reached) =>
      && key in s.monitors
      && if reached then s.monitors[key].renewal.Executed?
         else s.monitors[key].renewal.Executed? || s.monitors[key].renewal.Issued?
    case Finish(key, status) =>
      && s.Active(key) && s.monitors[key].phase.Watching? && !Lost(s.monitors[key].guard, s.now) && !s.Locked(key.0)
      && !status.InProgress? && !status.Cancelled?
    case AbandonedAbort(key) =>
      && s.Active(key) && key.1 > 1 && s.monitors[key].phase.Claimed?
      && s.now <= s.monitors[key].anchor + p.maxLag && !s.Locked(key.0)
    case StopWatching(key) => key in s.monitors && s.monitors[key].phase.Watching?
    case Cancel(id) => id in s.rows && s.rows[id].status.InProgress? && !s.Locked(id)
    case AbortStale(id) => id in s.rows && Stale(s.rows[id], s.now) && !s.Locked(id)
    case Forget(id) => id in s.rows && Forgotten(s.rows[id], s.now) && !s.Locked(id)
    case Retire(id, days) => id in s.rows && days >= 1 && Retirable(s.rows[id], days, s.now) && !s.Locked(id)
    case Lock(w, owner, limit, ids) =>
      && w !in s.sweeps && owner !in s.released
      && OldestBatch(s.rows, SweepCandidates(s), limit, ids)
    case Commit(w) => w in s.sweeps && s.sweeps[w].ids <= s.epochs.Keys
    case Rollback(w) => w in s.sweeps
    case ReleaseAll(owner) => MayRelease(s, owner)
  }

  /** Shutdown waits for the reaper first, and the statement waits for the rows it touches. */
  ghost predicate MayRelease(s: State, owner: Owner) {
    && (forall w :: w in s.sweeps ==> s.sweeps[w].owner != owner)
    && (forall id :: id in s.rows && Releasable(s.rows[id], owner) ==> !s.Locked(id))
  }

  /** SKIP LOCKED: lapsed rows no other sweep holds. */
  ghost function SweepCandidates(s: State): set<TaskId> {
    set id | id in s.rows && Claimable(s.rows[id], s.now) && !s.Locked(id)
  }

  ghost function Apply(p: Params, s: State, step: Step): State
    requires Enabled(p, s, step)
  {
    match step
    case Advance(elapsed) => s.(now := s.now + elapsed)
    case Admit(id, owner) => Admitted(s, id, owner)
    case ClaimAdmitted(id) => AdmissionClaimed(s, id)
    case StartGuard(key) => s.With(key, s.monitors[key].(phase := Watching, guard := Guard(false, s.now)))
    case Check(key) =>
      var m := s.monitors[key];
      s.With(key,
        m.(guard := AfterCheck(m.guard, s.now), renewal := if Aged(m.guard, s.now) then Idle else Checked(s.now)))
    case Issue(key) =>
      var m := s.monitors[key];
      s.With(key, m.(renewal := Issued(m.renewal.at, s.now)))
    case Execute(key) =>
      var m := s.monitors[key];
      s.With(key, m.(renewal := Executed(m.renewal.stamp, HeldBy(s.rows, key.0, m.owner))))
       .(rows := Renew(s.rows, key.0, m.owner, s.now))
    case ExecuteStray(key, at) =>
      var m := s.monitors[key];
      s.With(key, m.(strays := m.strays - {at})).(rows := Renew(s.rows, key.0, m.owner, s.now))
    case Answer(key, reached) =>
      var m := s.monitors[key];
      if reached then
        s.With(key, m.(guard := AfterReply(m.guard, m.renewal.stamp, Answered(m.renewal.held)), renewal := Idle))
      else
        var strays := if m.renewal.Issued? then m.strays + {m.renewal.at} else m.strays;
        s.With(key, m.(guard := AfterReply(m.guard, m.renewal.stamp, Unreachable), renewal := Idle, strays := strays))
    case Finish(key, status) =>
      s.With(key, s.monitors[key].(phase := Ended, wrote := true)).(rows := WithStatus(s.rows, key.0, status))
    case AbandonedAbort(key) =>
      s.With(key, s.monitors[key].(phase := Ended, guard := Guard(true, s.now), wrote := true))
       .(rows := WithStatus(s.rows, key.0, Aborted))
    case StopWatching(key) => s.With(key, s.monitors[key].(phase := Ended))
    case Cancel(id) => s.(rows := WithStatus(s.rows, id, Cancelled))
    case AbortStale(id) => s.(rows := WithStatus(s.rows, id, Aborted))
    case Forget(id) => s.(rows := s.rows - {id})
    case Retire(id, _) => s.(rows := s.rows - {id})
    case Lock(w, owner, _, ids) => s.(sweeps := s.sweeps[w := Sweep(owner, s.now, ids)])
    case Commit(w) => Committed(s, w)
    case Rollback(w) => s.(sweeps := s.sweeps - {w})
    case ReleaseAll(owner) => s.(rows := Release(s.rows, owner, s.now), released := s.released + {owner})
  }

  /** A new row, unclaimed, and the monitor the accepting replica is about to start. */
  function Admitted(s: State, id: TaskId, owner: Owner): State {
    s.(rows := s.rows[id := Row(InProgress, None, None, s.now)],
       epochs := s.epochs[id := 1],
       monitors := s.monitors[(id, 1) := NewMonitor(owner, Accepted, s.now)])
  }

  function AdmissionClaimed(s: State, id: TaskId): State
    requires (id, 1) in s.monitors
  {
    var m := s.monitors[(id, 1)];
    s.With((id, 1), m.(phase := Claimed, anchor := s.now)).(rows := Claim(s.rows, {id}, m.owner, s.now))
  }

  /** The sweep's rows change hands and each gets a monitor under its next claim number. */
  function Committed(s: State, w: nat): State
    requires w in s.sweeps && s.sweeps[w].ids <= s.epochs.Keys
  {
    var sweep := s.sweeps[w];
    s.(rows := Claim(s.rows, sweep.ids, sweep.owner, sweep.at),
       epochs := map id | id in s.epochs :: if id in sweep.ids then s.epochs[id] + 1 else s.epochs[id],
       monitors := s.monitors + NewClaims(s.epochs, sweep),
       sweeps := s.sweeps - {w})
  }

  function NewClaims(epochs: map<TaskId, nat>, sweep: Sweep): map<Key, Monitor>
    requires sweep.ids <= epochs.Keys
  {
    map id | id in sweep.ids :: (id, epochs[id] + 1) := NewMonitor(sweep.owner, Claimed, sweep.at)
  }

  function NewMonitor(owner: Owner, phase: Phase, anchor: Time): Monitor {
    Monitor(owner, phase, anchor, Guard(false, anchor), Idle, {}, false)
  }

  ghost predicate Next(p: Params, s: State, s': State) {
    exists step ::
      && Enabled(p, s, step)
      && s' == Apply(p, s, step)
  }

  ghost predicate NextAt(p: Params, run: seq<State>, i: nat)
    requires i + 1 < |run|
  {
    Next(p, run[i], run[i + 1])
  }

  ghost predicate Run(p: Params, run: seq<State>) {
    && |run| > 0
    && run[0] == INIT
    && forall i :: 0 <= i < |run| - 1 ==> NextAt(p, run, i)
  }
}
