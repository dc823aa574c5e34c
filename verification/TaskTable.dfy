/**
 The table of deployments that every replica shares, and the SQL statements that
 change it. Each statement is a method of TaskTable; what the statement does to the
 rows is a function on the map of rows, which the protocol in LeaseProtocol uses too.
 */
module TaskTable {
  import opened Common

  type TaskId = nat
  type Owner = nat

  datatype Status = InProgress | Deployed | Failed | Aborted | AppNotFound | Cancelled

  datatype Row = Row(status: Status, owner: Option<Owner>, lease: Option<Time>, created: Time)

  type Rows = map<TaskId, Row>

  const LEASE_TTL: Time := 30 * SECOND
  const RENEW_INTERVAL: Time := LEASE_TTL / 5
  const STALE_AFTER: Time := HOUR
  const RETENTION_BATCH: nat := 1000

  /** When the row stops being protected. A row nobody claimed has a whole TTL from its creation. */
  function Expiry(row: Row): Time {
    match row.lease
    case Some(deadline) => deadline
    case None => row.created + LEASE_TTL
  }

  /** The WHERE clause of the sweep. */
  predicate Claimable(row: Row, now: Time) {
    && row.status.InProgress?
    && match row.lease
       case Some(deadline) => deadline < now
       case None => row.created < now - LEASE_TTL
  }

  /** The WHERE clause of the renewal. */
  predicate HeldBy(rows: Rows, id: TaskId, me: Owner) {
    id in rows && rows[id].owner == Some(me)
  }

  /** The WHERE clause of the retention step. */
  predicate Retirable(row: Row, days: nat, now: Time) {
    && row.created < now - days * DAY
    && !row.status.InProgress?
    && (row.lease.None? || row.lease.value <= now)
  }

  function ClaimedRow(row: Row, me: Owner, now: Time): Row {
    row.(owner := Some(me), lease := Some(now + LEASE_TTL))
  }

  function Claim(rows: Rows, ids: set<TaskId>, me: Owner, now: Time): Rows {
    map id | id in rows :: if id in ids then ClaimedRow(rows[id], me, now) else rows[id]
  }

  function Renew(rows: Rows, id: TaskId, me: Owner, now: Time): Rows {
    if HeldBy(rows, id, me) then rows[id := rows[id].(lease := Some(now + LEASE_TTL))] else rows
  }

  predicate Releasable(row: Row, me: Owner) {
    row.owner == Some(me) && row.status.InProgress?
  }

  function Release(rows: Rows, me: Owner, now: Time): Rows {
    map id | id in rows ::
      if Releasable(rows[id], me) then rows[id].(owner := None, lease := Some(now)) else rows[id]
  }

  function WithStatus(rows: Rows, id: TaskId, status: Status): Rows {
    if id in rows then rows[id := rows[id].(status := status)] else rows
  }

  predicate Stale(row: Row, now: Time) {
    row.status.InProgress? && row.created < now - STALE_AFTER
  }

  predicate Forgotten(row: Row, now: Time) {
    row.status.AppNotFound? && row.created < now - STALE_AFTER
  }

  /** ids is what `ORDER BY created LIMIT limit` keeps of eligible. */
  ghost predicate OldestBatch(rows: Rows, eligible: set<TaskId>, limit: nat, ids: set<TaskId>) {
    && ids <= eligible <= rows.Keys
    && |ids| <= limit
    && (ids == eligible || |ids| == limit)
    && forall a, b :: a in ids && b in eligible - ids ==> rows[a].created <= rows[b].created
  }

  method PickOldest(rows: Rows, eligible: set<TaskId>, limit: nat) returns (ids: set<TaskId>)
    requires eligible <= rows.Keys
    ensures OldestBatch(rows, eligible, limit, ids)
    ensures ids <= eligible && |ids| <= limit && (ids == eligible || |ids| == limit)
    ensures forall a, b :: a in ids && b in eligible - ids ==> rows[a].created <= rows[b].created
  {
    ids := {};
    var rest := eligible;
    while rest != {} && |ids| < limit
      invariant ids !! rest && ids + rest == eligible
      invariant |ids| <= limit
      invariant forall a, b :: a in ids && b in rest ==> rows[a].created <= rows[b].created
      decreases rest
    {
      var oldest := Oldest(rows, rest);
      ids, rest := ids + {oldest}, rest - {oldest};
    }
  }

  method Oldest(rows: Rows, candidates: set<TaskId>) returns (oldest: TaskId)
    requires candidates != {} && candidates <= rows.Keys
    ensures oldest in candidates
    ensures forall id :: id in candidates ==> rows[oldest].created <= rows[id].created
  {
    oldest :| oldest in candidates;
    var rest := candidates - {oldest};
    while rest != {}
      invariant oldest in candidates && rest <= candidates
      invariant forall id :: id in candidates - rest ==> rows[oldest].created <= rows[id].created
      decreases rest
    {
      var id :| id in rest;
      if rows[id].created < rows[oldest].created {
        oldest := id;
      }
      rest := rest - {id};
    }
  }

  /** The shared table. Every method is one SQL statement, except DeleteExpired, which is a loop of them. */
  class TaskTable {
    var rows: Rows

    constructor ()
      ensures rows == map[]
    {
      rows := map[];
    }

    method ClaimTask(me: Owner, id: TaskId, now: Time)
      modifies this
      ensures rows == Claim(old(rows), {id}, me, now)
      ensures rows.Keys == old(rows).Keys
      ensures forall other :: other in rows && other != id ==> rows[other] == old(rows)[other]
      ensures id in rows ==> rows[id] == old(rows)[id].(owner := Some(me), lease := Some(now + LEASE_TTL))
    {
      rows := map other | other in rows :: if other == id then ClaimedRow(rows[other], me, now) else rows[other];
    }

    method RenewLease(me: Owner, id: TaskId, now: Time) returns (held: bool)
      modifies this
      ensures held <==> id in old(rows) && old(rows)[id].owner == Some(me)
      ensures rows == Renew(old(rows), id, me, now)
      ensures rows == if held then old(rows)[id := old(rows)[id].(lease := Some(now + LEASE_TTL))] else old(rows)
    {
      held := id in rows && rows[id].owner == Some(me);
      if held {
        rows := rows[id := rows[id].(lease := Some(now + LEASE_TTL))];
      }
    }

    /** Hands every unfinished deployment of this replica over: unowned, and lapsed from the next instant on. */
    method ReleaseOwnedLeases(me: Owner, now: Time) returns (released: nat)
      modifies this
      ensures rows == Release(old(rows), me, now)
      ensures rows.Keys == old(rows).Keys
      ensures forall id :: id in rows ==>
        rows[id] == if old(rows)[id].owner == Some(me) && old(rows)[id].status == InProgress
                    then old(rows)[id].(owner := None, lease := Some(now)) else old(rows)[id]
      ensures released == |set id | id in old(rows) && Releasable(old(rows)[id], me)|
      ensures forall id :: id in rows && rows[id].status.InProgress? ==> rows[id].owner != Some(me)
      ensures forall id, later :: id in old(rows) && Releasable(old(rows)[id], me) && now < later ==>
        Claimable(rows[id], later)
    {
      var mine := set id | id in rows && Releasable(rows[id], me);
      rows := Release(rows, me, now);
      released := |mine|;
    }

    /** Takes over up to limit lapsed deployments, oldest first; nothing else changes. */
    method ClaimExpiredTasks(me: Owner, limit: nat, now: Time) returns (claimed: set<TaskId>)
      modifies this
      ensures OldestBatch(old(rows), (set id | id in old(rows) && Claimable(old(rows)[id], now)), limit, claimed)
      ensures rows == Claim(old(rows), claimed, me, now)
      ensures rows.Keys == old(rows).Keys && (forall id :: id in rows && id !in claimed ==> rows[id] == old(rows)[id])
      ensures forall id :: id in claimed ==>
        && id in rows && old(rows)[id].status == InProgress
        && rows[id] == old(rows)[id].(owner := Some(me), lease := Some(now + LEASE_TTL))
      ensures |claimed| < limit ==> forall id :: id in old(rows) && old(rows)[id].status == InProgress ==>
        (id in claimed <==> match old(rows)[id].lease
                            case Some(deadline) => deadline < now
                            case None => old(rows)[id].created < now - LEASE_TTL)
      ensures forall id, later :: id in claimed && now <= later <= now + LEASE_TTL ==> !Claimable(rows[id], later)
    {
      claimed := PickOldest(rows, (set id | id in rows && Claimable(rows[id], now)), limit);
      rows := Claim(rows, claimed, me, now);
    }

    method SetTaskStatus(id: TaskId, status: Status) returns (found: bool)
      modifies this
      ensures found == (id in old(rows))
      ensures rows == WithStatus(old(rows), id, status)
      ensures rows.Keys == old(rows).Keys
      ensures id in rows ==> rows[id] == old(rows)[id].(status := status)
      ensures forall other :: other in rows && other != id ==> rows[other] == old(rows)[other]
    {
      found := id in rows;
      if found {
        rows := rows[id := rows[id].(status := status)];
      }
    }

    /** The hourly sweep: forgets unknown applications, aborts stale deployments, then retires old rows. */
    method ProcessObsoleteTasks(retention: Option<nat>, now: Time) returns (deleted: nat)
      modifies this
      ensures rows.Keys <= old(rows).Keys
      ensures forall id :: id in old(rows) ==>
        var row := old(rows)[id];
        var aged := row.created < now - HOUR;
        var retired := && retention.Some? && row.created < now - retention.value * DAY
                       && (row.status == InProgress ==> aged) && (row.lease.Some? ==> row.lease.value <= now);
        (id in rows <==> !(row.status == AppNotFound && aged) && !retired)
      ensures forall id :: id in rows ==>
        rows[id] == if old(rows)[id].status == InProgress && old(rows)[id].created < now - HOUR
                    then old(rows)[id].(status := Aborted) else old(rows)[id]
    {
      hide RetirableIds, Retirable;
      rows := map id | id in rows && !Forgotten(rows[id], now) :: rows[id];
      rows := map id | id in rows :: AgedOut(rows[id], now);
      deleted := 0;
      if retention.Some? {
        deleted := DeleteExpired(retention.value, now);
      }
    }

    /**
     Deletes in batches until a batch comes back short: by then nothing retirable is left, and nothing
     else is gone.
     */
    method DeleteExpired(days: nat, now: Time) returns (deleted: nat)
      modifies this
      ensures rows == old(rows) - RetirableIds(old(rows), days, now)
      ensures rows.Keys <= old(rows).Keys
      ensures forall id :: id in old(rows) ==>
        var row := old(rows)[id];
        var finished := row.created < now - days * DAY && row.status != InProgress;
        (id in rows <==> (finished ==> row.lease.Some? && row.lease.value > now))
      ensures deleted == |RetirableIds(old(rows), days, now)|
    {
      hide RetirableIds, Retirable, OldestBatch;
      RetirableIs(rows, days, now);
      deleted := 0;
      ghost var all, gone := rows, {};
      var batch := RETENTION_BATCH;
      while batch >= RETENTION_BATCH
        invariant gone <= RetirableIds(all, days, now)
        invariant deleted == |gone|
        invariant rows == all - gone
        invariant batch < RETENTION_BATCH ==> RetirableIds(rows, days, now) == {}
        decreases |rows|, if batch >= RETENTION_BATCH then 1 else 0
      {
        var expired := DeleteBatch(days, now);
        batch := |expired|;
        RetirableAfter(all, gone, days, now);
        RowsLeft(all - gone, expired);
        WithoutBoth(all, gone, expired);
        assert gone !! expired;
        gone := gone + expired;
        deleted := deleted + batch;
      }
      RetirableAfter(all, gone, days, now);
    }

    /** One DELETE statement: the oldest retirable rows, at most a batch of them. */
    method DeleteBatch(days: nat, now: Time) returns (expired: set<TaskId>)
      modifies this
      ensures OldestBatch(old(rows), RetirableIds(old(rows), days, now), RETENTION_BATCH, expired)
      ensures rows == old(rows) - expired
      ensures |expired| < RETENTION_BATCH ==> RetirableIds(rows, days, now) == {}
    {
      expired := PickOldest(rows, RetirableIds(rows, days, now), RETENTION_BATCH);
      RetirableAfter(rows, expired, days, now);
      rows := rows - expired;
    }
  }

  function RetirableIds(rows: Rows, days: nat, now: Time): set<TaskId> {
    set id | id in rows && Retirable(rows[id], days, now)
  }

  /** Retention takes finished rows older than the window, but for those a lease still protects. */
  lemma RetirableIs(rows: Rows, days: nat, now: Time)
    ensures RetirableIds(rows, days, now) <= rows.Keys
    ensures forall id :: id in rows ==>
      var row := rows[id];
      var finished := row.created < now - days * DAY && row.status != InProgress;
      (id in RetirableIds(rows, days, now) <==> finished && (row.lease.Some? ==> row.lease.value <= now))
  {
  }

  lemma RetirableAfter(rows: Rows, gone: set<TaskId>, days: nat, now: Time)
    ensures RetirableIds(rows - gone, days, now) == RetirableIds(rows, days, now) - gone
  {
  }

  lemma WithoutBoth(rows: Rows, a: set<TaskId>, b: set<TaskId>)
    ensures rows - a - b == rows - (a + b)
  {
  }

  lemma RowsLeft(rows: Rows, ids: set<TaskId>)
    requires ids <= rows.Keys
    ensures |rows - ids| == |rows| - |ids|
  {
    assert (rows - ids).Keys == rows.Keys - ids;
  }

  function AgedOut(row: Row, now: Time): Row {
    if Stale(row, now) then row.(status := Aborted) else row
  }
}
