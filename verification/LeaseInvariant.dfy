/** What every step of the lease protocol keeps. */
module LeaseInvariant {
  import opened Common
  import opened TaskTable
  import opened LeaseGuard
  import opened LeaseProtocol

  /** The hypothesis of the safety theorems. The extra nanosecond comes from the two strict comparisons in the code. */
  predicate Tight(p: Params) {
    p.maxLag + p.maxStatement <= RENEW_INTERVAL + 1
  }

  predicate Started(m: Monitor) {
    m.phase.Watching? || m.phase.Ended?
  }

  /** When the renewals that may still reach the store were checked. */
  function Outstanding(m: Monitor): set<Time> {
    m.strays + if m.renewal.Checked? || m.renewal.Issued? then {m.renewal.at} else {}
  }

  predicate Confirmed(m: Monitor) {
    m.renewal.Executed? && m.renewal.held
  }

  /** A monitor that gives up, and runs out of statements, before its row can be swept. */
  predicate Anchored(p: Params, m: Monitor, expiry: Time) {
    && m.anchor + LEASE_TTL <= expiry
    && (Started(m) ==> m.guard.lost || m.guard.lastRenewed + LEASE_TTL <= expiry + p.maxLag)
    && (Confirmed(m) ==> m.renewal.stamp + LEASE_TTL <= expiry)
    && forall at :: at in Outstanding(m) ==> at + p.maxStatement <= expiry
  }

  /** A monitor that has lost its claim, or will not start, and cannot get it back from an answer it awaits. */
  predicate Gone(p: Params, m: Monitor, now: Time) {
    && (Started(m) ==> Lost(m.guard, now))
    && (!Started(m) ==> m.anchor + p.maxLag < now)
    && (Confirmed(m) ==> Aged(Guard(false, m.renewal.stamp), now))
  }

  /** Gone, and none of its statements can reach the store any more. */
  predicate Dead(p: Params, m: Monitor, now: Time) {
    && Gone(p, m, now)
    && forall at :: at in Outstanding(m) ==> at + p.maxStatement < now
  }

  ghost predicate MonitorInv(p: Params, s: State, key: Key)
    requires key in s.monitors
  {
    var m := s.monitors[key];
    && key.0 in s.epochs && 1 <= key.1 <= s.epochs[key.0]
    && m.anchor <= s.now
    && (m.renewal.Issued? ==> m.renewal.stamp <= s.now)
    && (m.phase.Ended? <== m.wrote)
    && (m.wrote ==> s.Current(key) && (key.0 in s.rows ==> !s.rows[key.0].status.InProgress?))
    && (!s.Current(key) ==> Succeeded(s, key))
    && (s.Active(key) ==> Standing(p, s, key))
  }

  /** The next claim came more than a TTL later, unless this one was released. */
  predicate Succeeded(s: State, key: Key)
    requires key in s.monitors
  {
    var next: Key := (key.0, key.1 + 1);
    && next in s.monitors
    && (s.Active(key) ==> s.monitors[key].anchor + LEASE_TTL < s.monitors[next].anchor)
  }

  predicate Standing(p: Params, s: State, key: Key)
    requires key in s.monitors
  {
    var m := s.monitors[key];
    if !s.Current(key) then Dead(p, m, s.now)
    else if key.0 in s.rows then Anchored(p, m, Expiry(s.rows[key.0]))
    else p.maxLag <= RENEW_INTERVAL ==> m.wrote || Gone(p, m, s.now)
  }

  /** Statuses only a monitor records. */
  predicate Reported(status: Status) {
    status.Deployed? || status.Failed? || status.AppNotFound?
  }

  ghost predicate RowInv(s: State, id: TaskId)
    requires id in s.rows
  {
    var row := s.rows[id];
    && id in s.epochs && (id, s.epochs[id]) in s.monitors
    && row.created <= s.now
    && row.created <= Expiry(row) <= s.now + LEASE_TTL
    && (row.owner.Some? ==> s.monitors[(id, s.epochs[id])].owner == row.owner.value)
    && (row.owner.Some? && row.owner.value in s.released ==> !row.status.InProgress?)
    && (Reported(row.status) ==> s.monitors[(id, s.epochs[id])].wrote)
  }

  ghost predicate SweepInv(s: State, w: nat)
    requires w in s.sweeps
  {
    && s.sweeps[w].owner !in s.released
    && s.sweeps[w].at <= s.now
    && forall id :: id in s.sweeps[w].ids ==>
         id in s.rows && s.rows[id].status.InProgress? && Expiry(s.rows[id]) < s.sweeps[w].at
  }

  ghost predicate Inv(p: Params, s: State) {
    && s.rows.Keys <= s.epochs.Keys
    && (forall id :: id in s.epochs ==> s.epochs[id] >= 1 && (id, s.epochs[id]) in s.monitors)
    && (forall key {:trigger MonitorInv(p, s, key)} :: key in s.monitors ==> MonitorInv(p, s, key))
    && (forall id {:trigger RowInv(s, id)} :: id in s.rows ==> RowInv(s, id))
    && (forall w {:trigger SweepInv(s, w)} :: w in s.sweeps ==> SweepInv(s, w))
    && (forall v, w :: v in s.sweeps && w in s.sweeps && v != w ==> s.sweeps[v].ids !! s.sweeps[w].ids)
  }

  /** Once its row has lapsed, an anchored monitor is dead: the margin the guard keeps is exactly enough. */
  lemma LapseKills(p: Params, m: Monitor, expiry: Time, now: Time)
    requires Tight(p) && Anchored(p, m, expiry) && expiry < now
    ensures Dead(p, m, now)
  {
  }

  lemma DeadStaysDead(p: Params, m: Monitor, now: Time, later: Time)
    requires now <= later
    ensures Gone(p, m, now) ==> Gone(p, m, later)
    ensures Dead(p, m, now) ==> Dead(p, m, later)
  {
  }

  /** Replacing one monitor by what its own thread made of it. */
  lemma MonitorMoves(p: Params, s: State, key: Key, m: Monitor)
    requires Inv(p, s) && key in s.monitors
    requires m.owner == s.monitors[key].owner && m.anchor == s.monitors[key].anchor
    requires s.monitors[key].wrote ==> m.wrote
    requires MonitorInv(p, s.With(key, m), key)
    ensures Inv(p, s.With(key, m))
  {
    var s' := s.With(key, m);
    forall k | k in s'.monitors ensures MonitorInv(p, s', k) {
      if k != key { assert MonitorInv(p, s, k); }
    }
    forall id | id in s'.rows ensures RowInv(s', id) {
      assert RowInv(s, id);
    }
    forall w | w in s'.sweeps ensures SweepInv(s', w) {
      assert SweepInv(s, w);
    }
  }

  /** Changing one unlocked row without shortening its claim or reopening it. */
  lemma RowMoves(p: Params, s: State, id: TaskId, row: Row)
    requires Inv(p, s) && id in s.rows && !s.Locked(id)
    requires row.owner == s.rows[id].owner && row.created == s.rows[id].created
    requires Expiry(s.rows[id]) <= Expiry(row) <= s.now + LEASE_TTL
    requires row.status.InProgress? ==> s.rows[id].status.InProgress?
    requires Reported(row.status) ==> s.monitors[(id, s.epochs[id])].wrote
    ensures Inv(p, s.(rows := s.rows[id := row]))
  {
    var s' := s.(rows := s.rows[id := row]);
    forall k | k in s'.monitors ensures MonitorInv(p, s', k) {
      assert MonitorInv(p, s, k);
    }
    forall other | other in s'.rows ensures RowInv(s', other) {
      assert RowInv(s, other);
    }
    forall w | w in s'.sweeps ensures SweepInv(s', w) {
      assert SweepInv(s, w);
    }
  }

  /** Dropping an unlocked row. */
  lemma RowGoes(p: Params, s: State, id: TaskId)
    requires Inv(p, s) && id in s.rows && !s.Locked(id)
    requires p.maxLag <= RENEW_INTERVAL && s.Active((id, s.epochs[id])) ==>
      s.monitors[(id, s.epochs[id])].wrote || Gone(p, s.monitors[(id, s.epochs[id])], s.now)
    ensures Inv(p, s.(rows := s.rows - {id}))
  {
    var s' := s.(rows := s.rows - {id});
    forall k | k in s'.monitors ensures MonitorInv(p, s', k) {
      assert MonitorInv(p, s, k);
      if k.0 == id && s.Current(k) { assert k == (id, s.epochs[id]); }
    }
    forall other | other in s'.rows ensures RowInv(s', other) {
      assert RowInv(s, other);
    }
    forall w | w in s'.sweeps ensures SweepInv(s', w) {
      assert SweepInv(s, w);
    }
  }
}
