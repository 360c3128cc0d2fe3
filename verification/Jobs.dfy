/** The deployment queue as a protocol: operators, webhooks, any number of workers with
    their heartbeats, retention and process restarts, interleaved in any order. Every
    event is one store call or one decision of a worker. */
module Jobs {
  import opened Options
  import opened Deployments

  /** Where the worker that claimed a row is. `lost` records a failed heartbeat. */
  datatype Phase =
    | Working(lost: bool)
    | Decided(status: Status, lost: bool, wantsRollback: bool)
    | Rollbacking

  /** A worker's copy of the row it claimed. Jobs are kept by the row's serial. */
  datatype Job = Job(id: nat, app: nat, action: string, phase: Phase)

  /** `claims` is the history of claimed serials; `deploys` and `rollbacks` count the
      accepted external requests. `up` is false from a crash until recovery. */
  datatype Sys = Sys(
    rows: Table, jobs: map<nat, Job>, nextSerial: nat,
    claims: seq<nat>, deploys: nat, rollbacks: nat, up: bool)

  datatype Event =
    | Request(app: nat, action: string, now: int)
    | Claim(now: int)
    | Beat(serial: nat, now: int, storeFails: bool)
    | Cancel(app: nat, id: nat, now: int)
    | GiveUp(serial: nat)                                    // application or log file unavailable
    | Decide(serial: nat, jobFails: bool, triggers: bool)    // job ended; cancellation read
    | Finish(serial: nat, now: int)
    | QueueRollback(serial: nat, now: int)
    | Prune(app: nat, ids: set<nat>)
    | Crash
    | Recover(now: int)

  // ---- One event ----

  /** The rows DELETE ... WHERE application_id = ? AND id IN (...) removes. */
  function OfApp(t: Table, app: nat, ids: set<nat>): set<nat> {
    set id | id in ids && id in t && t[id].app == app
  }

  /** The worker's last reading: an accepted cancellation wins, then any error,
      including a lost lease. */
  function FinalStatus(cancelled: bool, jobFails: bool, lost: bool): Status {
    if cancelled then Cancelled else if jobFails || lost then Failed else Successful
  }

  predicate AtWork(y: Sys, serial: nat) {
    serial in y.jobs && y.jobs[serial].phase.Working?
  }

  predicate AtEnd(y: Sys, serial: nat) {
    serial in y.jobs && y.jobs[serial].phase.Decided?
  }

  ghost function Queue(y: Sys, app: nat, action: string, now: int): Sys {
    if HasActive(y.rows, app) then y else
    y.(rows := y.rows[NextId(y.rows) := NewRow(app, y.nextSerial, action, now)], nextSerial := y.nextSerial + 1)
  }

  function SetPhase(y: Sys, serial: nat, phase: Phase): Sys
    requires serial in y.jobs
  {
    y.(jobs := y.jobs[serial := y.jobs[serial].(phase := phase)])
  }

  function CancelRequested(y: Sys, id: nat): bool {
    id in y.rows && y.rows[id].cancelRequestedAt.Some?
  }

  function DoBeat(y: Sys, serial: nat, now: int, storeFails: bool): Sys
    requires AtWork(y, serial)
  {
    var id := y.jobs[serial].id;
    if !storeFails && id in y.rows && Renewable(y.rows[id])
    then y.(rows := y.rows[id := Renewed(y.rows[id], now)])
    else SetPhase(y, serial, Working(true))
  }

  function DoDecide(y: Sys, serial: nat, jobFails: bool, triggers: bool): Sys
    requires AtWork(y, serial)
  {
    var job := y.jobs[serial];
    var status := FinalStatus(CancelRequested(y, job.id), jobFails, job.phase.lost);
    SetPhase(y, serial, Decided(status, job.phase.lost, status == Failed && job.action == "deploy" && triggers))
  }

  function DoFinish(y: Sys, serial: nat, now: int): Sys
    requires AtEnd(y, serial)
  {
    var job := y.jobs[serial];
    var done := if job.id in y.rows
                then y.(rows := y.rows[job.id := Finished(y.rows[job.id], job.phase.status, now)])
                else y;
    if job.phase.wantsRollback then SetPhase(done, serial, Rollbacking)
    else done.(jobs := done.jobs - {serial})
  }

  function DoClaim(y: Sys, id: nat, now: int): Sys
    requires id in y.rows
  {
    var r := y.rows[id];
    y.(rows := y.rows[id := Claimed(r, now)],
       jobs := y.jobs[r.serial := Job(id, r.app, r.action, Working(false))],
       claims := y.claims + [r.serial])
  }

  ghost function DoRequest(y: Sys, app: nat, action: string, now: int): Sys {
    if HasActive(y.rows, app) || action !in {"deploy", "rollback"} then y else
    var q := Queue(y, app, action, now);
    if action == "deploy" then q.(deploys := y.deploys + 1) else q.(rollbacks := y.rollbacks + 1)
  }

  /** An event whose precondition does not hold leaves the system as it is. */
  ghost function Next(y: Sys, e: Event): Sys {
    match e
    case Request(app, action, now) => DoRequest(y, app, action, now)
    case Claim(now) =>
      var oldest := OldestQueued(y.rows);
      if y.up && oldest.Some? then DoClaim(y, oldest.value, now) else y
    case Beat(serial, now, storeFails) =>
      if AtWork(y, serial) then DoBeat(y, serial, now, storeFails) else y
    case Cancel(app, id, now) =>
      if id in y.rows && Cancellable(y.rows[id], app)
      then y.(rows := y.rows[id := CancelledRow(y.rows[id], now)]) else y
    case GiveUp(serial) =>
      if AtWork(y, serial)
      then SetPhase(y, serial, Decided(Failed, y.jobs[serial].phase.lost, false)) else y
    case Decide(serial, jobFails, triggers) =>
      if AtWork(y, serial) then DoDecide(y, serial, jobFails, triggers) else y
    case Finish(serial, now) =>
      if AtEnd(y, serial) then DoFinish(y, serial, now) else y
    case QueueRollback(serial, now) =>
      if serial in y.jobs && y.jobs[serial].phase.Rollbacking?
      then Queue(y.(jobs := y.jobs - {serial}), y.jobs[serial].app, "auto_rollback", now) else y
    case Prune(app, ids) =>
      var gone := OfApp(y.rows, app, ids);
      if forall id :: id in gone ==> !Active(y.rows[id]) then y.(rows := y.rows - gone) else y
    case Crash => y.(jobs := map[], up := false)
    case Recover(now) => if y.up then y else y.(rows := Recovered(y.rows, now), up := true)
  }

  ghost function Run(y: Sys, es: seq<Event>): Sys
    decreases es
  {
    if es == [] then y else Run(Next(y, es[0]), es[1..])
  }

  function Initial(): Sys {
    Sys(map[], map[], 1, [], 0, 0, false)
  }

  // ---- The invariant ----

  predicate OneActive(t: Table) {
    forall i, j :: i in t && j in t && Active(t[i]) && Active(t[j]) && t[i].app == t[j].app ==> i == j
  }

  /** What each status says about the other columns. */
  predicate Shaped(r: Row) {
    && ValidAction(r.action)
    && match r.status
       case Queued =>
         r.attempt == 0 && r.heartbeatAt == None && r.leaseExpiresAt == None && r.finishedAt == None && r.cancelRequestedAt == None
       case Running =>
         r.attempt == 1 && r.heartbeatAt.Some? && r.finishedAt == None
         && r.leaseExpiresAt == Some(r.heartbeatAt.value + LEASE_SECONDS)
       case _ =>
         r.attempt <= 1 && r.finishedAt.Some? && r.leaseExpiresAt == None
         && (r.status == Successful ==> r.cancelRequestedAt == None)
  }

  predicate AllShaped(t: Table) {
    forall i :: i in t ==> Shaped(t[i])
  }

  predicate Serials(y: Sys) {
    && (forall i :: i in y.rows ==> y.rows[i].serial < y.nextSerial)
    && (forall i, j :: i in y.rows && j in y.rows && y.rows[i].serial == y.rows[j].serial ==> i == j)
  }

  predicate Owns(y: Sys, serial: nat, job: Job) {
    && job.id in y.rows && y.rows[job.id].status == Running
    && y.rows[job.id].serial == serial && y.rows[job.id].app == job.app && y.rows[job.id].action == job.action
  }

  /** A worker that has not finished owns a running row; while the process is up every
      running row has such a worker. */
  predicate JobsOk(y: Sys) {
    && (forall s :: s in y.jobs ==> s < y.nextSerial && (!y.jobs[s].phase.Rollbacking? ==> Owns(y, s, y.jobs[s])))
    && (forall s :: s in y.jobs && y.jobs[s].phase.Decided? ==>
          SoundDecision(y.jobs[s].phase) && (y.jobs[s].phase.wantsRollback ==> y.jobs[s].action == "deploy"))
    && (forall s :: s in y.jobs && y.jobs[s].phase.Rollbacking? ==> y.jobs[s].action == "deploy")
    && (forall i :: y.up && i in y.rows && y.rows[i].status == Running ==>
          y.rows[i].serial in y.jobs && !y.jobs[y.rows[i].serial].phase.Rollbacking?)
    && (!y.up ==> y.jobs == map[])
  }

  predicate SoundDecision(p: Phase)
    requires p.Decided?
  {
    && p.status in {Successful, Failed, Cancelled}
    && (p.lost ==> p.status != Successful)
    && (p.wantsRollback ==> p.status == Failed)
  }

  predicate ClaimsOk(y: Sys) {
    && (forall i :: 0 <= i < |y.claims| ==> y.claims[i] < y.nextSerial)
    && (forall i, j :: 0 <= i < j < |y.claims| ==> y.claims[i] != y.claims[j])
    && (forall i :: i in y.rows && y.rows[i].status == Queued ==> y.rows[i].serial !in y.claims)
    && (forall s :: s in y.jobs ==> s in y.claims)
  }

  predicate Inv(y: Sys) {
    OneActive(y.rows) && AllShaped(y.rows) && Serials(y) && JobsOk(y) && ClaimsOk(y)
  }

  lemma InitialInv()
    ensures Inv(Initial())
  {
  }

  /** The table alone. */
  predicate RowsOk(y: Sys) {
    OneActive(y.rows) && AllShaped(y.rows) && Serials(y)
  }

  lemma QueueRowsOk(y: Sys, app: nat, action: string, now: int)
    requires RowsOk(y) && ValidAction(action)
    ensures RowsOk(Queue(y, app, action, now))
  {
    hide ValidAction;
  }

  lemma QueueInv(y: Sys, app: nat, action: string, now: int)
    requires Inv(y) && ValidAction(action)
    ensures Inv(Queue(y, app, action, now))
  {
    hide RowsOk, OneActive, AllShaped, ValidAction, Shaped, JobsOk, ClaimsOk, Serials, Queue;
    RowsOkParts(y);
    QueueRowsOk(y, app, action, now);
    RowsOkParts(Queue(y, app, action, now));
    QueueJobsOk(y, app, action, now);
    QueueClaimsOk(y, app, action, now);
  }

  lemma RowsOkParts(y: Sys)
    ensures RowsOk(y) <==> OneActive(y.rows) && AllShaped(y.rows) && Serials(y)
  {
  }

  lemma QueueJobsOk(y: Sys, app: nat, action: string, now: int)
    requires JobsOk(y)
    ensures JobsOk(Queue(y, app, action, now))
  {
    hide SoundDecision;
  }

  lemma QueueClaimsOk(y: Sys, app: nat, action: string, now: int)
    requires ClaimsOk(y)
    ensures ClaimsOk(Queue(y, app, action, now))
  {
  }

  lemma ClaimRowsOk(y: Sys, id: nat, now: int)
    requires RowsOk(y) && id in y.rows && y.rows[id].status == Queued
    ensures RowsOk(DoClaim(y, id, now))
  {
    hide ValidAction;
  }

  lemma ClaimClaimsOk(y: Sys, id: nat, now: int)
    requires ClaimsOk(y) && Serials(y) && id in y.rows && y.rows[id].status == Queued
    ensures ClaimsOk(DoClaim(y, id, now))
  {
  }

  lemma ClaimJobsOk(y: Sys, id: nat, now: int)
    requires JobsOk(y) && Serials(y) && y.up && id in y.rows && y.rows[id].status == Queued
    ensures JobsOk(DoClaim(y, id, now))
  {
    hide SoundDecision;
    var z := DoClaim(y, id, now);
    forall s | s in z.jobs && s != y.rows[id].serial && !z.jobs[s].phase.Rollbacking?
      ensures Owns(z, s, z.jobs[s])
    {
      assert Owns(y, s, y.jobs[s]);
    }
  }

  lemma ClaimInv(y: Sys, id: nat, now: int)
    requires Inv(y) && y.up && id in y.rows && y.rows[id].status == Queued
    ensures Inv(DoClaim(y, id, now))
  {
    hide OneActive, AllShaped, Serials, JobsOk, ClaimsOk, RowsOk, DoClaim;
    RowsOkParts(y);
    ClaimRowsOk(y, id, now);
    RowsOkParts(DoClaim(y, id, now));
    ClaimJobsOk(y, id, now);
    ClaimClaimsOk(y, id, now);
  }

  lemma RowRowsOk(y: Sys, id: nat, r: Row)
    requires RowsOk(y) && id in y.rows && Shaped(r)
    requires r.app == y.rows[id].app && r.serial == y.rows[id].serial
    requires Active(r) ==> Active(y.rows[id])
    ensures RowsOk(y.(rows := y.rows[id := r]))
  {
    hide Shaped;
  }

  lemma RowClaimsOk(y: Sys, id: nat, r: Row)
    requires ClaimsOk(y) && id in y.rows && r.serial == y.rows[id].serial
    requires r.status == Queued ==> y.rows[id].status == Queued
    ensures ClaimsOk(y.(rows := y.rows[id := r]))
  {
  }

  /** A change of one row that keeps its identity and, unless it ends, its status. */
  lemma RowInv(y: Sys, id: nat, r: Row)
    requires Inv(y) && id in y.rows && Shaped(r)
    requires r.app == y.rows[id].app && r.serial == y.rows[id].serial && r.action == y.rows[id].action
    requires r.status == y.rows[id].status || (y.rows[id].status == Queued && !Active(r))
    ensures Inv(y.(rows := y.rows[id := r]))
  {
    hide Shaped, OneActive, AllShaped, ClaimsOk, SoundDecision;
    RowRowsOk(y, id, r);
    RowClaimsOk(y, id, r);
    hide Serials;
  }

  lemma FinishRowsOk(y: Sys, serial: nat, now: int)
    requires RowsOk(y) && AtEnd(y, serial) && Owns(y, serial, y.jobs[serial]) && SoundDecision(y.jobs[serial].phase)
    ensures RowsOk(DoFinish(y, serial, now))
  {
    hide ValidAction;
  }

  lemma FinishJobsOk(y: Sys, serial: nat, now: int)
    requires JobsOk(y) && Serials(y) && AtEnd(y, serial)
    ensures JobsOk(DoFinish(y, serial, now))
  {
  }

  lemma FinishInv(y: Sys, serial: nat, now: int)
    requires Inv(y) && AtEnd(y, serial)
    ensures Inv(DoFinish(y, serial, now))
  {
    hide OneActive, AllShaped;
    assert Owns(y, serial, y.jobs[serial]);
    FinishRowsOk(y, serial, now);
    FinishJobsOk(y, serial, now);
    hide JobsOk, Serials;
  }

  lemma PhaseJobsOk(y: Sys, serial: nat, p: Phase)
    requires JobsOk(y) && AtWork(y, serial)
    requires !p.Rollbacking?
    requires p.Decided? ==> SoundDecision(p) && (p.wantsRollback ==> y.jobs[serial].action == "deploy")
    ensures JobsOk(SetPhase(y, serial, p))
  {
  }

  lemma PhaseSerialsOk(y: Sys, serial: nat, p: Phase)
    requires serial in y.jobs && Serials(y)
    ensures Serials(SetPhase(y, serial, p))
  {
  }

  lemma PhaseInv(y: Sys, serial: nat, p: Phase)
    requires Inv(y) && AtWork(y, serial)
    requires !p.Rollbacking?
    requires p.Decided? ==> SoundDecision(p) && (p.wantsRollback ==> y.jobs[serial].action == "deploy")
    ensures Inv(SetPhase(y, serial, p))
  {
    hide OneActive, AllShaped, SoundDecision, JobsOk, Serials;
    PhaseJobsOk(y, serial, p);
    PhaseSerialsOk(y, serial, p);
  }

  lemma RecoverRowsOk(y: Sys, now: int)
    requires RowsOk(y)
    ensures RowsOk(y.(rows := Recovered(y.rows, now), up := true))
  {
    hide ValidAction;
  }

  lemma RecoverInv(y: Sys, now: int)
    requires Inv(y) && !y.up
    ensures Inv(y.(rows := Recovered(y.rows, now), up := true))
  {
    hide OneActive, AllShaped;
    RecoverRowsOk(y, now);
    hide Serials;
  }

  lemma BeatInv(y: Sys, serial: nat, now: int, storeFails: bool)
    requires Inv(y) && AtWork(y, serial)
    ensures Inv(DoBeat(y, serial, now, storeFails))
  {
    hide OneActive, Serials, JobsOk, ClaimsOk;
    var id := y.jobs[serial].id;
    if id in y.rows && Renewable(y.rows[id]) {
      RowInv(y, id, Renewed(y.rows[id], now));
    }
    PhaseInv(y, serial, Working(true));
  }

  lemma CancelInv(y: Sys, app: nat, id: nat, now: int)
    requires Inv(y) && id in y.rows && Cancellable(y.rows[id], app)
    ensures Inv(y.(rows := y.rows[id := CancelledRow(y.rows[id], now)]))
  {
    hide OneActive, Serials, JobsOk, ClaimsOk;
    RowInv(y, id, CancelledRow(y.rows[id], now));
  }

  lemma PruneInv(y: Sys, ids: set<nat>)
    requires Inv(y) && forall id :: id in ids && id in y.rows ==> !Active(y.rows[id])
    ensures Inv(y.(rows := y.rows - ids))
  {
    hide Shaped;
  }

  lemma RequestInv(y: Sys, app: nat, action: string, now: int)
    requires Inv(y)
    ensures Inv(DoRequest(y, app, action, now))
  {
    if action in {"deploy", "rollback"} {
      QueueInv(y, app, action, now);
      CountersKeepInv(Queue(y, app, action, now), DoRequest(y, app, action, now));
    }
  }

  lemma CountersKeepInv(y: Sys, z: Sys)
    requires Inv(y) && z == y.(deploys := z.deploys, rollbacks := z.rollbacks)
    ensures Inv(z)
  {
    hide Shaped;
  }

  lemma QueueRollbackInv(y: Sys, serial: nat, now: int)
    requires Inv(y) && serial in y.jobs && y.jobs[serial].phase.Rollbacking?
    ensures Inv(Queue(y.(jobs := y.jobs - {serial}), y.jobs[serial].app, "auto_rollback", now))
  {
    DropJobInv(y, serial);
    hide Inv;
    QueueInv(y.(jobs := y.jobs - {serial}), y.jobs[serial].app, "auto_rollback", now);
  }

  lemma DropJobInv(y: Sys, serial: nat)
    requires Inv(y) && serial in y.jobs && y.jobs[serial].phase.Rollbacking?
    ensures Inv(y.(jobs := y.jobs - {serial}))
  {
    hide Shaped, OneActive, AllShaped, SoundDecision;
  }

  lemma CrashInv(y: Sys)
    requires Inv(y)
    ensures Inv(y.(jobs := map[], up := false))
  {
    hide Shaped;
  }

  /** No event breaks the invariant. */
  lemma NextInv(y: Sys, e: Event)
    requires Inv(y)
    ensures Inv(Next(y, e))
  {
    hide OneActive, Shaped, AllShaped, Serials, ClaimsOk, Queue, DoRequest, DoClaim, DoBeat, DoFinish, SoundDecision;
    match e
    case Request(app, action, now) => RequestInv(y, app, action, now);
    case Claim(now) =>
      var oldest := OldestQueued(y.rows);
      if y.up && oldest.Some? { ClaimInv(y, oldest.value, now); }
    case Beat(serial, now, storeFails) => if AtWork(y, serial) { BeatInv(y, serial, now, storeFails); }
    case Cancel(app, id, now) =>
      if id in y.rows && Cancellable(y.rows[id], app) { CancelInv(y, app, id, now); }
    case GiveUp(serial) => if AtWork(y, serial) { DecisionInv(y, serial, Failed, false); }
    case Decide(serial, jobFails, triggers) =>
      if AtWork(y, serial) {
        var p := DoDecide(y, serial, jobFails, triggers).jobs[serial].phase;
        DecisionInv(y, serial, p.status, p.wantsRollback);
      }
    case Finish(serial, now) => if AtEnd(y, serial) { FinishInv(y, serial, now); }
    case QueueRollback(serial, now) =>
      if serial in y.jobs && y.jobs[serial].phase.Rollbacking? { QueueRollbackInv(y, serial, now); }
    case Prune(app, ids) =>
      var gone := OfApp(y.rows, app, ids);
      if forall id :: id in gone ==> !Active(y.rows[id]) { PruneInv(y, gone); }
    case Crash => CrashInv(y);
    case Recover(now) => if !y.up { RecoverInv(y, now); }
  }

  lemma DecisionInv(y: Sys, serial: nat, status: Status, wantsRollback: bool)
    requires Inv(y) && AtWork(y, serial)
    requires status in {Successful, Failed, Cancelled} && (y.jobs[serial].phase.lost ==> status != Successful)
    requires wantsRollback ==> status == Failed && y.jobs[serial].action == "deploy"
    ensures Inv(SetPhase(y, serial, Decided(status, y.jobs[serial].phase.lost, wantsRollback)))
  {
    hide Inv;
    PhaseInv(y, serial, Decided(status, y.jobs[serial].phase.lost, wantsRollback));
  }

  lemma {:induction false} RunInv(y: Sys, es: seq<Event>)
    requires Inv(y)
    ensures Inv(Run(y, es))
    decreases es
  {
    if es != [] {
      NextInv(y, es[0]);
      RunInv(Next(y, es[0]), es[1..]);
    }
  }

  /** In every run from an empty table: one active row per application; every row has
      the shape of its status, so nothing active carries a finish time; and no row is
      claimed twice. */
  lemma QueueGuarantees(es: seq<Event>)
    ensures var y := Run(Initial(), es);
            && OneActive(y.rows) && AllShaped(y.rows)
            && (forall i :: i in y.rows && Active(y.rows[i]) ==> y.rows[i].finishedAt == None)
            && (forall i, j :: 0 <= i < j < |y.claims| ==> y.claims[i] != y.claims[j])
  {
    InitialInv();
    RunInv(Initial(), es);
  }

  // ---- How one row can change ----

  function Progress(s: Status): nat {
    match s case Queued => 0 case Running => 1 case _ => 2
  }

  /** A row never moves back; a finished row is never written again; once a cancellation
      is accepted a running row keeps its lease, heartbeat and everything else, and the
      row can no longer succeed. */
  predicate Evolves(r: Row, q: Row) {
    && q.app == r.app && q.serial == r.serial && q.action == r.action
    && Progress(r.status) <= Progress(q.status)
    && (Progress(r.status) == 2 ==> q == r)
    && (r.cancelRequestedAt.Some? ==> q.cancelRequestedAt == r.cancelRequestedAt && q.status != Successful)
    && (r.cancelRequestedAt.Some? && q.status == Running ==> q == r)
  }

  /** Every row of `z` is new since `y` or evolved from the row that had its id. */
  predicate RowsEvolve(y: Sys, z: Sys) {
    && y.nextSerial <= z.nextSerial
    && forall i :: i in z.rows && z.rows[i].serial < y.nextSerial ==> i in y.rows && Evolves(y.rows[i], z.rows[i])
  }

  lemma SameRowsEvolve(y: Sys, z: Sys)
    requires AllShaped(y.rows) && y.nextSerial <= z.nextSerial
    requires forall i :: i in z.rows && z.rows[i].serial < y.nextSerial ==> i in y.rows && z.rows[i] == y.rows[i]
    ensures RowsEvolve(y, z)
  {
    hide ValidAction;
  }

  lemma OneRowEvolves(y: Sys, z: Sys, id: nat)
    requires AllShaped(y.rows) && y.nextSerial <= z.nextSerial && id in y.rows && id in z.rows
    requires z.rows == y.rows[id := z.rows[id]] && Evolves(y.rows[id], z.rows[id])
    ensures RowsEvolve(y, z)
  {
    hide ValidAction;
  }

  lemma NextEvolves(y: Sys, e: Event)
    requires Inv(y)
    ensures RowsEvolve(y, Next(y, e))
  {
    hide OneActive, ClaimsOk, ValidAction, RowsEvolve, Serials, JobsOk, DoFinish, IsNextId, FinalStatus, DoRequest, Queue;
    var z := Next(y, e);
    match e
    case Request(app, action, now) => QueueEvolves(y, app, action, now);
    case QueueRollback(serial, now) =>
      QueueEvolves(y.(jobs := y.jobs - {serial}), if serial in y.jobs then y.jobs[serial].app else 0, "auto_rollback", now);
      SameRowsEvolve(y, z);
    case Claim(now) =>
      var oldest := OldestQueued(y.rows);
      if y.up && oldest.Some? { OneRowEvolves(y, z, oldest.value); } else { SameRowsEvolve(y, z); }
    case Beat(serial, now, storeFails) =>
      if AtWork(y, serial) && z.rows != y.rows { OneRowEvolves(y, z, y.jobs[serial].id); } else { SameRowsEvolve(y, z); }
    case Cancel(app, id, now) =>
      if id in y.rows && Cancellable(y.rows[id], app) { OneRowEvolves(y, z, id); } else { SameRowsEvolve(y, z); }
    case Finish(serial, now) =>
      if AtEnd(y, serial) { FinishEvolves(y, serial, now); } else { SameRowsEvolve(y, z); }
    case Recover(now) => RecoverEvolves(y, now); if y.up { SameRowsEvolve(y, z); }
    case _ => SameRowsEvolve(y, z);
  }

  /** A new row is the only change. */
  lemma QueueEvolves(y: Sys, app: nat, action: string, now: int)
    requires AllShaped(y.rows)
    ensures var z := Queue(y, app, action, now);
            && y.nextSerial <= z.nextSerial
            && forall i :: i in z.rows && z.rows[i].serial < y.nextSerial ==> i in y.rows && z.rows[i] == y.rows[i]
    ensures RowsEvolve(y, DoRequest(y, app, action, now))
  {
    hide RowsEvolve, Shaped;
    SameRowsEvolve(y, Queue(y, app, action, now));
    SameRowsEvolve(y, DoRequest(y, app, action, now));
  }

  lemma FinishEvolves(y: Sys, serial: nat, now: int)
    requires AllShaped(y.rows) && JobsOk(y) && AtEnd(y, serial)
    ensures RowsEvolve(y, DoFinish(y, serial, now))
  {
    hide ValidAction, RowsEvolve;
    assert Owns(y, serial, y.jobs[serial]);
    OneRowEvolves(y, DoFinish(y, serial, now), y.jobs[serial].id);
  }

  lemma RecoverEvolves(y: Sys, now: int)
    requires AllShaped(y.rows)
    ensures RowsEvolve(y, y.(rows := Recovered(y.rows, now), up := true))
  {
    hide ValidAction;
  }

  /** Over any run, rows only evolve. */
  lemma {:induction false} RunEvolves(y: Sys, es: seq<Event>)
    requires Inv(y)
    ensures RowsEvolve(y, Run(y, es))
    decreases es
  {
    if es == [] {
      assert RowsEvolve(y, y) by { hide OneActive, ClaimsOk, JobsOk, ValidAction; }
    } else {
      hide Next, Evolves;
      NextInv(y, es[0]);
      NextEvolves(y, es[0]);
      RunEvolves(Next(y, es[0]), es[1..]);
      EvolvesTransitive(y, Next(y, es[0]), Run(y, es));
    }
  }

  lemma EvolvesTransitive(x: Sys, y: Sys, z: Sys)
    requires RowsEvolve(x, y) && RowsEvolve(y, z)
    ensures RowsEvolve(x, z)
  {
  }

  // ---- Where rows come from ----

  /** An accepted request, an automatic rollback that finds no active work, and nothing
      else, adds a row: queued, under the next id, with its own action. */
  lemma RequestExactly(y: Sys, app: nat, action: string, now: int)
    ensures var z := Next(y, Request(app, action, now));
            var accepted := (action == "deploy" || action == "rollback")
              && forall i :: i in y.rows && y.rows[i].app == app ==> y.rows[i].status != Queued && y.rows[i].status != Running;
            && z.rows == (if accepted
                          then y.rows[NextId(y.rows) := Row(app, y.nextSerial, Queued, action, 0, now, None, None, None, None)]
                          else y.rows)
            && z.jobs == y.jobs && z.claims == y.claims && z.up == y.up
            && z.deploys == y.deploys + (if accepted && action == "deploy" then 1 else 0)
            && z.rollbacks == y.rollbacks + (if accepted && action == "rollback" then 1 else 0)
  {
    hide IsNextId;
  }

  lemma QueueRollbackExactly(y: Sys, serial: nat, now: int)
    requires serial in y.jobs && y.jobs[serial].phase.Rollbacking?
    ensures var z, app := Next(y, QueueRollback(serial, now)), y.jobs[serial].app;
            && z.rows == (if forall i :: i in y.rows && y.rows[i].app == app ==> y.rows[i].status != Queued && y.rows[i].status != Running
                          then y.rows[NextId(y.rows) := Row(app, y.nextSerial, Queued, "auto_rollback", 0, now, None, None, None, None)]
                          else y.rows)
            && z.jobs == y.jobs - {serial} && z.claims == y.claims && z.deploys == y.deploys && z.rollbacks == y.rollbacks
  {
    hide IsNextId;
  }

  /** A claim takes the oldest queued row, if there is one and the process is up. */
  lemma ClaimExactly(y: Sys, now: int)
    ensures var z := Next(y, Claim(now));
            if y.up && exists i :: i in y.rows && y.rows[i].status == Queued then
              exists id :: IsOldestQueued(y.rows, id)
                && var r := y.rows[id];
                   && z.rows == y.rows[id := r.(status := Running, startedAt := now, attempt := r.attempt + 1,
                                                heartbeatAt := Some(now), leaseExpiresAt := Some(now + 30))]
                   && z.jobs == y.jobs[r.serial := Job(id, r.app, r.action, Working(false))]
                   && z.claims == y.claims + [r.serial]
            else z == y
  {
    var oldest := OldestQueued(y.rows);
    if y.up && oldest.Some? {
      assert IsOldestQueued(y.rows, oldest.value);
    }
  }

  /** A heartbeat renews the lease of a running row nobody has cancelled; any other answer
      costs the worker its lease. */
  lemma BeatExactly(y: Sys, serial: nat, now: int, storeFails: bool)
    requires serial in y.jobs && y.jobs[serial].phase.Working?
    ensures var z, job := Next(y, Beat(serial, now, storeFails)), y.jobs[serial];
            z == if !storeFails && job.id in y.rows && y.rows[job.id].status == Running && y.rows[job.id].cancelRequestedAt == None
                 then y.(rows := y.rows[job.id := y.rows[job.id].(heartbeatAt := Some(now), leaseExpiresAt := Some(now + 30))])
                 else y.(jobs := y.jobs[serial := job.(phase := Working(true))])
  {
  }

  /** A cancellation ends a queued row, marks a running one, and otherwise does nothing. */
  lemma CancelExactly(y: Sys, app: nat, id: nat, now: int)
    ensures var z := Next(y, Cancel(app, id, now));
            z == if id in y.rows && y.rows[id].app == app && y.rows[id].status == Queued
                 then y.(rows := y.rows[id := y.rows[id].(status := Cancelled, finishedAt := Some(now), leaseExpiresAt := None)])
                 else if id in y.rows && y.rows[id].app == app && y.rows[id].status == Running && y.rows[id].cancelRequestedAt == None
                 then y.(rows := y.rows[id := y.rows[id].(cancelRequestedAt := Some(now))])
                 else y
  {
  }

  /** The end of the job: a cancel request that can be read wins, then any error, a lost
      lease included; only a failed deployment may ask for a rollback. */
  lemma DecideExactly(y: Sys, serial: nat, jobFails: bool, triggers: bool)
    requires serial in y.jobs && y.jobs[serial].phase.Working?
    ensures var z, job := Next(y, Decide(serial, jobFails, triggers)), y.jobs[serial];
            var cancelled := job.id in y.rows && y.rows[job.id].cancelRequestedAt.Some?;
            var fails := !cancelled && (jobFails || job.phase.lost);
            z == y.(jobs := y.jobs[serial := job.(phase :=
                   Decided(if cancelled then Cancelled else if fails then Failed else Successful, job.phase.lost,
                           fails && job.action == "deploy" && triggers))])
  {
  }

  lemma GiveUpExactly(y: Sys, serial: nat)
    requires serial in y.jobs && y.jobs[serial].phase.Working?
    ensures Next(y, GiveUp(serial))
            == y.(jobs := y.jobs[serial := y.jobs[serial].(phase := Decided(Failed, y.jobs[serial].phase.lost, false))])
  {
  }

  /** The final write: a cancel request in the row wins over the worker's decision; the
      worker then leaves, or goes on to its rollback. */
  lemma FinishExactly(y: Sys, serial: nat, now: int)
    requires serial in y.jobs && y.jobs[serial].phase.Decided?
    ensures var z, job := Next(y, Event.Finish(serial, now)), y.jobs[serial];
            && z.rows == (if job.id in y.rows
                          then y.rows[job.id := y.rows[job.id].(
                                 status := if y.rows[job.id].cancelRequestedAt.Some? then Cancelled else job.phase.status,
                                 finishedAt := Some(now), leaseExpiresAt := None)]
                          else y.rows)
            && z.jobs == (if job.phase.wantsRollback then y.jobs[serial := job.(phase := Rollbacking)] else y.jobs - {serial})
            && z.nextSerial == y.nextSerial && z.claims == y.claims && z.deploys == y.deploys && z.rollbacks == y.rollbacks && z.up == y.up
  {
  }

  lemma PruneExactly(y: Sys, app: nat, ids: set<nat>)
    ensures var chosen := set i | i in ids && i in y.rows && y.rows[i].app == app;
            Next(y, Prune(app, ids))
            == if forall i :: i in chosen ==> y.rows[i].status != Queued && y.rows[i].status != Running
               then y.(rows := y.rows - chosen) else y
  {
  }

  /** A crash forgets the workers; the restart fails what was running. */
  lemma CrashAndRecoverExactly(y: Sys, now: int)
    ensures Next(y, Crash) == y.(jobs := map[], up := false)
    ensures y.up ==> Next(y, Recover(now)) == y
    ensures !y.up ==>
              Next(y, Recover(now))
              == y.(up := true, rows := map i | i in y.rows ::
                     if y.rows[i].status == Running
                     then y.rows[i].(status := Failed, finishedAt := Some(now), leaseExpiresAt := None) else y.rows[i])
  {
    var recovered := map i | i in y.rows ::
      if y.rows[i].status == Running
      then y.rows[i].(status := Failed, finishedAt := Some(now), leaseExpiresAt := None) else y.rows[i];
    assert Recovered(y.rows, now) == recovered;
  }

  lemma OtherEventsAddNoRow(y: Sys, e: Event, i: nat)
    requires !e.Request? && !e.QueueRollback? && i in Next(y, e).rows
    ensures i in y.rows && Next(y, e).rows[i].serial == y.rows[i].serial
    ensures Next(y, e).rows[i].app == y.rows[i].app && Next(y, e).rows[i].action == y.rows[i].action
  {
    hide IsNextId;
  }

  /** At step `j` of the run a worker records the failure of a deployment. */
  ghost predicate RecordsFailedDeploy(es: seq<Event>, j: nat, serial: nat, app: nat) {
    && j < |es| && es[j].Finish? && es[j].serial == serial
    && var y := Run(Initial(), es[..j]);
       AtEnd(y, serial) && y.jobs[serial].phase.status == Failed && y.jobs[serial].action == "deploy" && y.jobs[serial].app == app
  }

  ghost predicate FollowsFailedDeploy(es: seq<Event>, app: nat) {
    exists j: nat, serial: nat :: RecordsFailedDeploy(es, j, serial, app)
  }

  /** What a run owes its automatic rollbacks. */
  ghost predicate RollbacksFollow(es: seq<Event>) {
    var y := Run(Initial(), es);
    && (forall s :: s in y.jobs && y.jobs[s].phase.Rollbacking? ==> FollowsFailedDeploy(es, y.jobs[s].app))
    && (forall i :: i in y.rows && y.rows[i].action == "auto_rollback" ==> FollowsFailedDeploy(es, y.rows[i].app))
  }

  lemma FollowsLonger(es: seq<Event>, e: Event, app: nat)
    requires FollowsFailedDeploy(es, app)
    ensures FollowsFailedDeploy(es + [e], app)
  {
    hide Run;
    var j: nat, serial: nat :| RecordsFailedDeploy(es, j, serial, app);
    assert (es + [e])[..j] == es[..j] && (es + [e])[j] == es[j];
    assert RecordsFailedDeploy(es + [e], j, serial, app);
  }

  lemma NewRollbacker(y: Sys, e: Event, s: nat)
    requires JobsOk(y) && s in Next(y, e).jobs && Next(y, e).jobs[s].phase.Rollbacking?
    ensures s in y.jobs && Next(y, e).jobs[s].app == y.jobs[s].app
    ensures !y.jobs[s].phase.Rollbacking? ==>
              e.Finish? && e.serial == s && AtEnd(y, s) && y.jobs[s].phase.status == Failed && y.jobs[s].action == "deploy"
  {
    hide Owns, IsNextId, Queue, DoRequest;
    match e
    case Request(app, action, now) => RequestExactly(y, app, action, now);
    case QueueRollback(serial, now) => if serial in y.jobs && y.jobs[serial].phase.Rollbacking? { QueueRollbackExactly(y, serial, now); }
    case _ =>
  }

  lemma NewAutoRollback(y: Sys, e: Event, i: nat)
    requires i in Next(y, e).rows && Next(y, e).rows[i].action == "auto_rollback"
    ensures (i in y.rows && y.rows[i].action == "auto_rollback" && y.rows[i].app == Next(y, e).rows[i].app)
            || (e.QueueRollback? && e.serial in y.jobs && y.jobs[e.serial].phase.Rollbacking? && y.jobs[e.serial].app == Next(y, e).rows[i].app)
  {
    hide IsNextId;
    match e
    case Request(app, action, now) => RequestExactly(y, app, action, now);
    case QueueRollback(serial, now) => if serial in y.jobs && y.jobs[serial].phase.Rollbacking? { QueueRollbackExactly(y, serial, now); }
    case _ => OtherEventsAddNoRow(y, e, i);
  }

  lemma RollbacksFollowStep(es: seq<Event>, e: Event)
    requires RollbacksFollow(es) && Inv(Run(Initial(), es)) && Run(Initial(), es + [e]) == Next(Run(Initial(), es), e)
    ensures RollbacksFollow(es + [e])
  {
    hide Run, Next, FollowsFailedDeploy, RecordsFailedDeploy, OneActive, AllShaped, Serials, ClaimsOk, JobsOk, AtEnd;
    var y := Run(Initial(), es);
    var z := Next(y, e);
    forall s | s in z.jobs && z.jobs[s].phase.Rollbacking?
      ensures FollowsFailedDeploy(es + [e], z.jobs[s].app)
    {
      NewRollbacker(y, e, s);
      if y.jobs[s].phase.Rollbacking? {
        FollowsLonger(es, e, y.jobs[s].app);
      } else {
        RecordedNow(es, e, s);
      }
    }
    forall i | i in z.rows && z.rows[i].action == "auto_rollback"
      ensures FollowsFailedDeploy(es + [e], z.rows[i].app)
    {
      NewAutoRollback(y, e, i);
      FollowsLonger(es, e, z.rows[i].app);
    }
  }

  lemma RecordedNow(es: seq<Event>, e: Event, s: nat)
    requires var y := Run(Initial(), es);
             e.Finish? && e.serial == s && AtEnd(y, s) && y.jobs[s].phase.status == Failed && y.jobs[s].action == "deploy"
    ensures FollowsFailedDeploy(es + [e], Run(Initial(), es).jobs[s].app)
  {
    hide Run;
    assert (es + [e])[..|es|] == es;
    assert RecordsFailedDeploy(es + [e], |es|, s, Run(Initial(), es).jobs[s].app);
  }

  lemma {:induction false} RunSnoc(y: Sys, es: seq<Event>, e: Event)
    ensures Run(y, es + [e]) == Next(Run(y, es), e)
    decreases es
  {
    hide Next;
    if es == [] {
      assert [] + [e] == [e] && [e][1..] == [];
    } else {
      assert (es + [e])[1..] == es[1..] + [e];
      RunSnoc(Next(y, es[0]), es[1..], e);
    }
  }

  /** In every run from an empty table a row with action auto_rollback only exists after
      a worker recorded the failure of a deployment of the same application. */
  lemma {:induction false} AutoRollbacksFollowFailures(es: seq<Event>)
    ensures RollbacksFollow(es)
    decreases es
  {
    hide Next, Inv, FollowsFailedDeploy;
    if es != [] {
      var n := |es| - 1;
      AutoRollbacksFollowFailures(es[..n]);
      InitialInv();
      RunInv(Initial(), es[..n]);
      RunSnoc(Initial(), es[..n], es[n]);
      assert es == es[..n] + [es[n]];
      hide RollbacksFollow;
      RollbacksFollowStep(es[..n], es[n]);
    }
  }

  // ---- Deleting a selection that has grown old ----

  /** A retention run selects finished rows and deletes them by id some time later. Until
      then a selected id holds either the very row that was selected, or, if that was
      deleted meanwhile and was the newest, a row of somebody else under the same id. */
  lemma SelectionUntouchedOrReused(y: Sys, es: seq<Event>, id: nat)
    requires Inv(y) && id in y.rows && !Active(y.rows[id])
    requires id in Run(y, es).rows
    ensures var r := Run(y, es).rows[id]; r == y.rows[id] <==> r.serial < y.nextSerial
  {
    hide Run, Next;
    RunEvolves(y, es);
    assert Serials(y);
  }

  /** The row `m` outlives the run, and nothing under its id or a smaller one is new. */
  predicate Pinned(z: Sys, m: nat, serial: nat) {
    m in z.rows && serial <= z.nextSerial && forall i :: i in z.rows && i <= m ==> z.rows[i].serial < serial
  }

  lemma NextPinned(y: Sys, e: Event, m: nat, serial: nat)
    requires Inv(y) && Pinned(y, m, serial) && (e.Prune? ==> m !in e.ids)
    ensures Pinned(Next(y, e), m, serial)
  {
    hide OneActive, AllShaped, ClaimsOk, Serials, Queue;
    match e
    case Request(app, action, now) => QueuePinned(y, app, action, now, m, serial);
    case QueueRollback(job, now) =>
      if job in y.jobs { QueuePinned(y.(jobs := y.jobs - {job}), y.jobs[job].app, "auto_rollback", now, m, serial); }
    case _ =>
  }

  lemma QueuePinned(y: Sys, app: nat, action: string, now: int, m: nat, serial: nat)
    requires Pinned(y, m, serial)
    ensures Pinned(Queue(y, app, action, now), m, serial)
  {
  }

  lemma {:induction false} RunPinned(y: Sys, es: seq<Event>, m: nat, serial: nat)
    requires Inv(y) && Pinned(y, m, serial)
    requires forall i :: 0 <= i < |es| && es[i].Prune? ==> m !in es[i].ids
    ensures Pinned(Run(y, es), m, serial)
    decreases es
  {
    hide Next, Inv, Pinned;
    if es != [] {
      assert forall i :: 0 <= i < |es[1..]| ==> es[1..][i] == es[i + 1];
      NextInv(y, es[0]);
      NextPinned(y, es[0], m, serial);
      RunPinned(Next(y, es[0]), es[1..], m, serial);
    }
  }

  /** While one row that is newer than the whole selection stays, the deletion hits no
      active row, whatever else happens in between. */
  lemma OldSelectionIsSafe(y: Sys, es: seq<Event>, app: nat, ids: set<nat>, m: nat)
    requires Inv(y) && m in y.rows
    requires forall id :: id in ids ==> id <= m && id in y.rows && !Active(y.rows[id])
    requires forall i :: 0 <= i < |es| && es[i].Prune? ==> m !in es[i].ids
    ensures var z := Run(y, es);
            && (forall id :: id in ids && id in z.rows ==> z.rows[id] == y.rows[id])
            && Next(z, Prune(app, ids)).rows == z.rows - OfApp(z.rows, app, ids)
  {
    hide Run, OneActive, AllShaped, JobsOk, ClaimsOk;
    RunPinned(y, es, m, y.nextSerial);
    var z := Run(y, es);
    forall id | id in ids && id in z.rows
      ensures z.rows[id] == y.rows[id]
    {
      SelectionUntouchedOrReused(y, es, id);
    }
  }

  /** Without such a row it can: two runs select the same newest row; after the first has
      deleted it, the next deployment gets its id, and the second is about to delete a
      queued row. */
  lemma OldSelectionCanHit(r: Row)
    requires Shaped(r) && !Active(r) && r.serial == 0
    ensures var y := Sys(map[1 := r], map[], 1, [], 0, 0, true);
            var z := Run(y, [Prune(r.app, {1}), Request(r.app, "deploy", 0)]);
            Inv(y) && 1 in OfApp(z.rows, r.app, {1}) && z.rows[1].status == Queued
  {
    var y := Sys(map[1 := r], map[], 1, [], 0, 0, true);
    var d := Next(y, Prune(r.app, {1}));
    assert OfApp(y.rows, r.app, {1}) == {1};
    assert d.rows == map[];
    var z := Next(d, Request(r.app, "deploy", 0));
    assert NextId(d.rows) == 1;
    var es: seq<Event> := [Prune(r.app, {1}), Request(r.app, "deploy", 0)];
    assert es[1..] == [Request(r.app, "deploy", 0)] && es[1..][1..] == [];
    assert Run(d, es[1..]) == Run(z, []);
  }

  // ---- Cancellation ----

  /** Rows of a serial that may not succeed any more, and will end cancelled unless the
      process dies first. */
  predicate Doomed(y: Sys, serial: nat) {
    && serial < y.nextSerial
    && forall i :: i in y.rows && y.rows[i].serial == serial ==>
         y.rows[i].status == Cancelled || (y.rows[i].status == Running && y.rows[i].cancelRequestedAt.Some?)
  }

  lemma NextDoomed(y: Sys, e: Event, serial: nat)
    requires Inv(y) && y.up && !e.Crash? && Doomed(y, serial)
    ensures Next(y, e).up && Doomed(Next(y, e), serial)
  {
    hide OneActive, AllShaped, Serials, JobsOk, ClaimsOk, Doomed, Queue, DoClaim, DoBeat, DoFinish, DoDecide;
    match e
    case Request(app, action, now) =>
      QueueDoomed(y, app, action, now, serial);
      SameRowsDoomed(Queue(y, app, action, now), Next(y, e), serial);
    case Claim(now) =>
      var oldest := OldestQueued(y.rows);
      if oldest.Some? { ClaimDoomed(y, oldest.value, now, serial); }
    case Beat(job, now, storeFails) => if AtWork(y, job) { BeatDoomed(y, job, now, storeFails, serial); }
    case Cancel(app, id, now) =>
      if id in y.rows && Cancellable(y.rows[id], app) { CancelDoomed(y, app, id, now, serial); }
    case GiveUp(job) => SameRowsDoomed(y, Next(y, e), serial);
    case Decide(job, jobFails, triggers) => if AtWork(y, job) { DecideRows(y, job, jobFails, triggers); SameRowsDoomed(y, Next(y, e), serial); }
    case Finish(job, now) => if AtEnd(y, job) { FinishDoomed(y, job, now, serial); }
    case QueueRollback(job, now) =>
      if job in y.jobs {
        SameRowsDoomed(y, y.(jobs := y.jobs - {job}), serial);
        QueueDoomed(y.(jobs := y.jobs - {job}), y.jobs[job].app, "auto_rollback", now, serial);
      }
    case Prune(app, ids) => PruneDoomed(y, OfApp(y.rows, app, ids), serial);
    case _ =>
  }

  lemma ClaimDoomed(y: Sys, id: nat, now: int, serial: nat)
    requires Doomed(y, serial) && id in y.rows && y.rows[id].status == Queued
    ensures Doomed(DoClaim(y, id, now), serial) && DoClaim(y, id, now).up == y.up
  {
  }

  lemma BeatDoomed(y: Sys, job: nat, now: int, storeFails: bool, serial: nat)
    requires Doomed(y, serial) && AtWork(y, job)
    ensures Doomed(DoBeat(y, job, now, storeFails), serial) && DoBeat(y, job, now, storeFails).up == y.up
  {
  }

  lemma CancelDoomed(y: Sys, app: nat, id: nat, now: int, serial: nat)
    requires Doomed(y, serial) && id in y.rows && Cancellable(y.rows[id], app)
    ensures Doomed(y.(rows := y.rows[id := CancelledRow(y.rows[id], now)]), serial)
  {
  }

  lemma DecideRows(y: Sys, job: nat, jobFails: bool, triggers: bool)
    requires AtWork(y, job)
    ensures var z := DoDecide(y, job, jobFails, triggers); z.rows == y.rows && z.nextSerial == y.nextSerial && z.up == y.up
  {
  }

  lemma SameRowsDoomed(y: Sys, z: Sys, serial: nat)
    ensures Doomed(y, serial) && z.rows == y.rows && z.nextSerial == y.nextSerial ==> Doomed(z, serial)
  {
  }

  lemma FinishDoomed(y: Sys, job: nat, now: int, serial: nat)
    requires JobsOk(y) && Doomed(y, serial) && AtEnd(y, job)
    ensures Doomed(DoFinish(y, job, now), serial) && DoFinish(y, job, now).up == y.up
  {
    assert Owns(y, job, y.jobs[job]);
    hide JobsOk;
  }

  lemma PruneDoomed(y: Sys, ids: set<nat>, serial: nat)
    requires Doomed(y, serial)
    ensures Doomed(y.(rows := y.rows - ids), serial)
  {
  }

  lemma QueueDoomed(y: Sys, app: nat, action: string, now: int, serial: nat)
    requires Doomed(y, serial)
    ensures Doomed(Queue(y, app, action, now), serial) && Queue(y, app, action, now).up == y.up
  {
  }

  lemma {:induction false} RunDoomed(y: Sys, es: seq<Event>, serial: nat)
    requires Inv(y) && y.up && Crash !in es && Doomed(y, serial)
    ensures Doomed(Run(y, es), serial)
    decreases es
  {
    if es != [] {
      assert es[0] in es;
      NextInv(y, es[0]);
      NextDoomed(y, es[0], serial);
      RunDoomed(Next(y, es[0]), es[1..], serial);
    }
  }

  /** Once CancelDeployment succeeds, the row never becomes successful, whatever races
      with it: in any continuation it is cancelled, still stopping, failed by a restart,
      or deleted; and without a crash it is never recorded as anything but cancelled. */
  lemma CancelIsFinal(y: Sys, app: nat, id: nat, now: int, es: seq<Event>, i: nat)
    requires Inv(y) && id in y.rows && Cancellable(y.rows[id], app)
    requires var z := Run(Next(y, Cancel(app, id, now)), es); i in z.rows && z.rows[i].serial == y.rows[id].serial
    ensures var r := Run(Next(y, Cancel(app, id, now)), es).rows[i];
            && r.status in {Cancelled, Running, Failed}
            && (r.status == Running ==> r.cancelRequestedAt == Some(now))
            && (y.up && Crash !in es ==> r.status != Failed)
  {
    hide Next, Inv, Run;
    var c := Next(y, Cancel(app, id, now));
    NextInv(y, Cancel(app, id, now));
    CancelDooms(y, app, id, now);
    RunEvolves(c, es);
    var serial := y.rows[id].serial;
    assert Evolves(c.rows[i], Run(c, es).rows[i]);
    assert i == id;
    if y.up && Crash !in es {
      RunDoomed(c, es, serial);
    }
  }

  /** The row after an accepted cancellation, and that it alone has its serial. */
  lemma CancelDooms(y: Sys, app: nat, id: nat, now: int)
    requires Inv(y) && id in y.rows && Cancellable(y.rows[id], app)
    ensures var c := Next(y, Cancel(app, id, now));
            && id in c.rows && c.rows[id] == CancelledRow(y.rows[id], now) && c.up == y.up
            && y.rows[id].serial < c.nextSerial && Doomed(c, y.rows[id].serial)
            && forall i :: i in c.rows && c.rows[i].serial == y.rows[id].serial ==> i == id
  {
    hide OneActive, AllShaped, JobsOk, ClaimsOk;
  }

  // ---- Lost leases ----

  /** A serial whose worker has lost its lease, or has already ended without success. */
  predicate Spoiled(y: Sys, serial: nat) {
    && serial < y.nextSerial
    && (forall i :: i in y.rows && y.rows[i].serial == serial ==> y.rows[i].status !in {Queued, Successful})
    && (serial in y.jobs && !y.jobs[serial].phase.Rollbacking? ==> y.jobs[serial].phase.lost)
  }

  lemma NextSpoiled(y: Sys, e: Event, serial: nat)
    requires Inv(y) && Spoiled(y, serial)
    ensures Spoiled(Next(y, e), serial)
  {
    hide OneActive, ClaimsOk, AllShaped, Serials, JobsOk, Spoiled, Queue, DoClaim, DoFinish, DoDecide, DoBeat, Recovered;
    match e
    case Request(app, action, now) =>
      QueueSpoiled(y, app, action, now, serial);
      SameSpoiled(Queue(y, app, action, now), Next(y, e), serial);
    case Claim(now) =>
      var oldest := OldestQueued(y.rows);
      if y.up && oldest.Some? { ClaimSpoiled(y, oldest.value, now, serial); }
    case Beat(job, now, storeFails) => if AtWork(y, job) { BeatSpoiled(y, job, now, storeFails, serial); }
    case Cancel(app, id, now) =>
      if id in y.rows && Cancellable(y.rows[id], app) { CancelSpoiled(y, app, id, now, serial); }
    case GiveUp(job) => if AtWork(y, job) { GiveUpSpoiled(y, job, serial); }
    case Decide(job, jobFails, triggers) => if AtWork(y, job) { DecideSpoiled(y, job, jobFails, triggers, serial); }
    case Finish(job, now) => if AtEnd(y, job) { FinishSpoiled(y, job, now, serial); }
    case QueueRollback(job, now) =>
      if job in y.jobs {
        DropSpoiled(y, job, serial);
        QueueSpoiled(y.(jobs := y.jobs - {job}), y.jobs[job].app, "auto_rollback", now, serial);
      }
    case Prune(app, ids) => PruneSpoiled(y, OfApp(y.rows, app, ids), serial);
    case Crash => PruneSpoiled(y, {}, serial);
    case Recover(now) => RecoverSpoiled(y, now, serial);
  }

  lemma SameSpoiled(y: Sys, z: Sys, serial: nat)
    ensures Spoiled(y, serial) && z.rows == y.rows && z.jobs == y.jobs && z.nextSerial == y.nextSerial ==> Spoiled(z, serial)
  {
  }

  lemma ClaimSpoiled(y: Sys, id: nat, now: int, serial: nat)
    requires Spoiled(y, serial) && id in y.rows && y.rows[id].status == Queued
    ensures Spoiled(DoClaim(y, id, now), serial)
  {
  }

  lemma CancelSpoiled(y: Sys, app: nat, id: nat, now: int, serial: nat)
    requires Spoiled(y, serial) && id in y.rows && Cancellable(y.rows[id], app)
    ensures Spoiled(y.(rows := y.rows[id := CancelledRow(y.rows[id], now)]), serial)
  {
  }

  lemma GiveUpSpoiled(y: Sys, job: nat, serial: nat)
    requires Spoiled(y, serial) && AtWork(y, job)
    ensures Spoiled(SetPhase(y, job, Decided(Failed, y.jobs[job].phase.lost, false)), serial)
  {
  }

  lemma DropSpoiled(y: Sys, job: nat, serial: nat)
    requires Spoiled(y, serial)
    ensures Spoiled(y.(jobs := y.jobs - {job}), serial)
  {
  }

  lemma PruneSpoiled(y: Sys, ids: set<nat>, serial: nat)
    requires Spoiled(y, serial)
    ensures Spoiled(y.(rows := y.rows - ids), serial)
    ensures Spoiled(y.(jobs := map[], up := false), serial)
  {
  }

  lemma RecoverSpoiled(y: Sys, now: int, serial: nat)
    requires Spoiled(y, serial)
    ensures Spoiled(y.(rows := Recovered(y.rows, now), up := true), serial)
  {
  }

  lemma BeatSpoiled(y: Sys, job: nat, now: int, storeFails: bool, serial: nat)
    requires AtWork(y, job) && Spoiled(y, serial)
    ensures Spoiled(DoBeat(y, job, now, storeFails), serial)
  {
  }

  lemma DecideSpoiled(y: Sys, job: nat, jobFails: bool, triggers: bool, serial: nat)
    requires AtWork(y, job) && Spoiled(y, serial)
    ensures Spoiled(DoDecide(y, job, jobFails, triggers), serial)
  {
  }

  lemma FinishSpoiled(y: Sys, job: nat, now: int, serial: nat)
    requires JobsOk(y) && AtEnd(y, job) && Spoiled(y, serial)
    ensures Spoiled(DoFinish(y, job, now), serial)
  {
  }

  lemma QueueSpoiled(y: Sys, app: nat, action: string, now: int, serial: nat)
    requires Spoiled(y, serial)
    ensures Spoiled(Queue(y, app, action, now), serial)
  {
  }

  /** A worker whose heartbeat failed once never records success. */
  lemma {:induction false} LostLeaseNeverSucceeds(y: Sys, es: seq<Event>, serial: nat)
    requires Inv(y) && Spoiled(y, serial)
    ensures Spoiled(Run(y, es), serial)
    decreases es
  {
    if es != [] {
      NextInv(y, es[0]);
      NextSpoiled(y, es[0], serial);
      LostLeaseNeverSucceeds(Next(y, es[0]), es[1..], serial);
    }
  }

  lemma LostLeaseSpoils(y: Sys, serial: nat)
    requires Inv(y) && serial in y.jobs && !y.jobs[serial].phase.Rollbacking? && y.jobs[serial].phase.lost
    ensures Spoiled(y, serial)
  {
  }
}
