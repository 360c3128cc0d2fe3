/** The deployments table: each store call as one atomic change of the rows. */
module Deployments {
  import opened Options

  datatype Status = Queued | Running | Successful | Failed | Cancelled

  /** `serial` is not a column: row ids are reused after the newest rows are deleted, and
      it tells such rows apart. */
  datatype Row = Row(
    app: nat, serial: nat, status: Status, action: string, attempt: nat,
    startedAt: int, finishedAt: Option<int>,
    heartbeatAt: Option<int>, leaseExpiresAt: Option<int>, cancelRequestedAt: Option<int>)

  type Table = map<nat, Row>

  const LEASE_SECONDS := 30

  predicate Active(r: Row) {
    r.status == Queued || r.status == Running
  }

  predicate ValidAction(action: string) {
    action == "deploy" || action == "rollback" || action == "auto_rollback"
  }

  /** What the partial unique index rejects. */
  predicate HasActive(t: Table, app: nat) {
    exists id :: id in t && t[id].app == app && Active(t[id])
  }

  lemma MaxExists(s: set<nat>)
    requires s != {}
    ensures exists m :: m in s && forall k :: k in s ==> k <= m
  {
    var m :| m in s;
    var rest := s;
    while rest != {}
      invariant rest <= s && m in s
      invariant forall k :: k in s && k !in rest ==> k <= m
    {
      var k :| k in rest;
      m := if k > m then k else m;
      rest := rest - {k};
    }
  }

  lemma MinExists(s: set<nat>)
    requires s != {}
    ensures exists m :: m in s && forall k :: k in s ==> m <= k
  {
    var m :| m in s;
    var rest := s;
    while rest != {}
      invariant rest <= s && m in s
      invariant forall k :: k in s && k !in rest ==> m <= k
    {
      var k :| k in rest;
      m := if k < m then k else m;
      rest := rest - {k};
    }
  }

  /** SQLite's row id for a plain integer primary key: one more than the largest. */
  predicate IsNextId(t: Table, id: nat) {
    && (forall k :: k in t ==> k < id)
    && if t == map[] then id == 1 else id > 0 && id - 1 in t
  }

  ghost function NextId(t: Table): (id: nat)
    ensures IsNextId(t, id)
  {
    if t == map[] then 1 else
    MaxExists(t.Keys);
    var m :| m in t.Keys && forall k :: k in t.Keys ==> k <= m;
    m + 1
  }

  predicate IsOldestQueued(t: Table, id: nat) {
    && id in t && t[id].status == Queued
    && forall k :: k in t && t[k].status == Queued ==> id <= k
  }

  ghost function OldestQueued(t: Table): (id: Option<nat>)
    ensures id == None ==> forall k :: k in t ==> t[k].status != Queued
    ensures id.Some? ==> IsOldestQueued(t, id.value)
  {
    var queued := set k | k in t && t[k].status == Queued;
    if queued == {} then
      assert forall k :: k in t && t[k].status == Queued ==> k in queued;
      None
    else
      MinExists(queued);
      var m :| m in queued && forall k :: k in queued ==> m <= k;
      assert forall k :: k in t && t[k].status == Queued ==> k in queued;
      Some(m)
  }

  // ---- Row changes ----

  function NewRow(app: nat, serial: nat, action: string, now: int): Row {
    Row(app, serial, Queued, action, 0, now, None, None, None, None)
  }

  function Claimed(r: Row, now: int): Row {
    r.(status := Running, startedAt := now, attempt := r.attempt + 1,
       heartbeatAt := Some(now), leaseExpiresAt := Some(now + LEASE_SECONDS))
  }

  predicate Renewable(r: Row) {
    r.status == Running && r.cancelRequestedAt == None
  }

  function Renewed(r: Row, now: int): Row {
    r.(heartbeatAt := Some(now), leaseExpiresAt := Some(now + LEASE_SECONDS))
  }

  predicate Cancellable(r: Row, app: nat) {
    r.app == app && (r.status == Queued || Renewable(r))
  }

  function CancelledRow(r: Row, now: int): Row {
    if r.status == Queued
    then r.(status := Cancelled, finishedAt := Some(now), leaseExpiresAt := None)
    else r.(cancelRequestedAt := Some(now))
  }

  function Finished(r: Row, status: Status, now: int): Row {
    r.(status := if r.cancelRequestedAt.Some? then Cancelled else status,
       finishedAt := Some(now), leaseExpiresAt := None)
  }

  function Interrupted(r: Row, now: int): Row {
    if r.status == Running then r.(status := Failed, finishedAt := Some(now), leaseExpiresAt := None) else r
  }

  function Recovered(t: Table, now: int): Table {
    map id | id in t :: Interrupted(t[id], now)
  }

  // ---- The store ----

  datatype StoreError = InvalidAction | UniqueViolation | NotFound | DeploymentCancelled

  datatype Result<+T> = Ok(value: T) | Err(error: StoreError)

  class Store {
    var rows: Table
    var nextSerial: nat

    method QueueDeployment(app: nat, action: string, now: int) returns (r: Result<nat>)
      modifies this
      ensures r == Err(InvalidAction) <==> action !in ["deploy", "rollback", "auto_rollback"]
      ensures r == Err(UniqueViolation) <==>
                && action in ["deploy", "rollback", "auto_rollback"]
                && exists id :: id in old(rows) && old(rows)[id].app == app && (old(rows)[id].status == Queued || old(rows)[id].status == Running)
      ensures r.Err? ==> r.error == InvalidAction || r.error == UniqueViolation
      ensures r.Err? ==> rows == old(rows) && nextSerial == old(nextSerial)
      ensures r.Ok? ==> IsNextId(old(rows), r.value) && nextSerial == old(nextSerial) + 1
      ensures r.Ok? ==> rows == old(rows)[r.value := Row(app, old(nextSerial), Queued, action, 0, now, None, None, None, None)]
    {
      if !ValidAction(action) {
        return Err(InvalidAction);
      }
      if exists id :: id in rows && rows[id].app == app && Active(rows[id]) {
        return Err(UniqueViolation);
      }
      var id := NextRowId();
      rows := rows[id := NewRow(app, nextSerial, action, now)];
      nextSerial := nextSerial + 1;
      return Ok(id);
    }

    method NextRowId() returns (id: nat)
      ensures IsNextId(rows, id)
    {
      id := 1;
      var rest := rows.Keys;
      if rest != {} {
        var first :| first in rest;
        id := first + 1;
      }
      while rest != {}
        invariant rest <= rows.Keys
        invariant rows == map[] ==> id == 1
        invariant rows != map[] ==> id > 0 && id - 1 in rows
        invariant forall k :: k in rows && k !in rest ==> k < id
      {
        var k :| k in rest;
        if k >= id {
          id := k + 1;
        }
        rest := rest - {k};
      }
    }

    method NextQueuedDeployment(now: int) returns (r: Result<nat>)
      modifies this`rows
      ensures r.Err? ==> r.error == NotFound && rows == old(rows) && forall k :: k in rows ==> rows[k].status != Queued
      ensures r.Ok? ==> IsOldestQueued(old(rows), r.value)
      ensures r.Ok? ==> var q := old(rows)[r.value];
                        rows == old(rows)[r.value := q.(status := Running, startedAt := now, attempt := q.attempt + 1,
                                                        heartbeatAt := Some(now), leaseExpiresAt := Some(now + 30))]
    {
      var rest := rows.Keys;
      var oldest: Option<nat> := None;
      while rest != {}
        invariant rest <= rows.Keys
        invariant oldest == None ==> forall k :: k in rows && k !in rest ==> rows[k].status != Queued
        invariant oldest.Some? ==> oldest.value in rows && rows[oldest.value].status == Queued
        invariant oldest.Some? ==> forall k :: k in rows && k !in rest && rows[k].status == Queued ==> oldest.value <= k
      {
        var k :| k in rest;
        if rows[k].status == Queued && (oldest == None || k < oldest.value) {
          oldest := Some(k);
        }
        rest := rest - {k};
      }
      if oldest == None {
        return Err(NotFound);
      }
      rows := rows[oldest.value := Claimed(rows[oldest.value], now)];
      return Ok(oldest.value);
    }

    method HeartbeatDeployment(id: nat, now: int) returns (r: Result<()>)
      modifies this`rows
      ensures r.Ok? <==> id in old(rows) && old(rows)[id].status == Running && old(rows)[id].cancelRequestedAt == None
      ensures r.Ok? ==> rows == old(rows)[id := old(rows)[id].(heartbeatAt := Some(now), leaseExpiresAt := Some(now + 30))]
      ensures r.Err? ==> rows == old(rows)
      ensures r.Err? ==> r.error == if id in rows && rows[id].cancelRequestedAt.Some? then DeploymentCancelled else NotFound
    {
      if id in rows && Renewable(rows[id]) {
        rows := rows[id := Renewed(rows[id], now)];
        return Ok(());
      }
      var cancelled := CancellationRequested(id);
      return if cancelled == Ok(true) then Err(DeploymentCancelled) else Err(NotFound);
    }

    method CancellationRequested(id: nat) returns (r: Result<bool>)
      ensures r == if id in rows then Ok(rows[id].cancelRequestedAt.Some?) else Err(NotFound)
    {
      return if id in rows then Ok(rows[id].cancelRequestedAt.Some?) else Err(NotFound);
    }

    method CancelDeployment(app: nat, id: nat, now: int) returns (r: Result<()>)
      modifies this`rows
      ensures r.Ok? <==>
                && id in old(rows) && old(rows)[id].app == app
                && (old(rows)[id].status == Queued || (old(rows)[id].status == Running && old(rows)[id].cancelRequestedAt == None))
      ensures r.Ok? && old(rows)[id].status == Queued ==>
                rows == old(rows)[id := old(rows)[id].(status := Cancelled, finishedAt := Some(now), leaseExpiresAt := None)]
      ensures r.Ok? && old(rows)[id].status == Running ==>
                rows == old(rows)[id := old(rows)[id].(cancelRequestedAt := Some(now))]
      ensures r.Err? ==> r.error == NotFound && rows == old(rows)
    {
      if id in rows && rows[id].app == app && rows[id].status == Queued {
        rows := rows[id := rows[id].(status := Cancelled, finishedAt := Some(now), leaseExpiresAt := None)];
        return Ok(());
      }
      if id in rows && rows[id].app == app && Renewable(rows[id]) {
        rows := rows[id := rows[id].(cancelRequestedAt := Some(now))];
        return Ok(());
      }
      return Err(NotFound);
    }

    /** An update of a missing row is not an error. */
    method FinishDeployment(id: nat, status: Status, now: int)
      modifies this`rows
      ensures rows == if id in old(rows)
                      then old(rows)[id := old(rows)[id].(status := if old(rows)[id].cancelRequestedAt.Some? then Cancelled else status,
                                                          finishedAt := Some(now), leaseExpiresAt := None)]
                      else old(rows)
    {
      if id in rows {
        rows := rows[id := Finished(rows[id], status, now)];
      }
    }

    method DeleteDeployments(app: nat, ids: set<nat>)
      modifies this`rows
      ensures rows == old(rows) - (set id | id in ids && id in old(rows) && old(rows)[id].app == app)
    {
      rows := map id | id in rows && !(id in ids && rows[id].app == app) :: rows[id];
    }

    method RecoverInterruptedDeployments(now: int) returns (count: nat)
      modifies this`rows
      ensures rows == map id | id in old(rows) ::
                        if old(rows)[id].status == Running
                        then old(rows)[id].(status := Failed, finishedAt := Some(now), leaseExpiresAt := None) else old(rows)[id]
      ensures count == |set id | id in old(rows) && old(rows)[id].status == Running|
    {
      var running := set id | id in rows && rows[id].status == Running;
      count := |running|;
      rows := map id | id in rows :: Interrupted(rows[id], now);
    }
  }
}
