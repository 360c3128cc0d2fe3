/** Every event of the protocol in Jobs, carried out by the store calls it stands for. */
module Calls {
  import opened Options
  import opened Deployments
  import opened Jobs

  ghost predicate Mirrors(s: Store, y: Sys)
    reads s
  {
    s.rows == y.rows && s.nextSerial == y.nextSerial
  }

  /** The workers' own copies of their rows; those in `own` are kept elsewhere. */
  ghost predicate Tracks(jobs: map<nat, Job>, y: Sys, own: set<nat>) {
    own <= y.jobs.Keys && jobs == y.jobs - own
  }

  /** The event is no step of a worker in `own`. */
  predicate Foreign(e: Event, own: set<nat>) {
    match e
    case Beat(serial, _, _) => serial !in own
    case GiveUp(serial) => serial !in own
    case Decide(serial, _, _) => serial !in own
    case Finish(serial, _) => serial !in own
    case QueueRollback(serial, _) => serial !in own
    case Crash => own == {}
    case _ => true
  }

  lemma NextIdUnique(t: Table, id: nat)
    requires IsNextId(t, id)
    ensures id == NextId(t)
  {
  }

  lemma NextIdIsNew(t: Table, id: nat)
    requires id in t
    ensures NextId(t) != id
  {
  }

  lemma OldestUnique(t: Table, id: nat)
    requires IsOldestQueued(t, id)
    ensures OldestQueued(t) == Some(id)
  {
  }

  /** The claim creates a job for a serial nobody else has. */
  lemma ClaimedJob(y: Sys, id: nat)
    requires Inv(y) && y.up && IsOldestQueued(y.rows, id)
    ensures y.rows[id].serial !in y.jobs
    ensures y.rows[id].cancelRequestedAt == None
  {
  }

  /** QueueDeployment is Queue. */
  method QueueRow(s: Store, app: nat, action: string, now: int, ghost y: Sys)
    requires Mirrors(s, y) && ValidAction(action)
    modifies s
    ensures Mirrors(s, Queue(y, app, action, now))
  {
    hide IsNextId;
    var queued := s.QueueDeployment(app, action, now);
    if queued.Ok? {
      NextIdUnique(y.rows, queued.value);
    }
  }

  method Request(s: Store, app: nat, action: string, now: int, ghost y: Sys)
    requires Mirrors(s, y)
    modifies s
    ensures Mirrors(s, DoRequest(y, app, action, now)) && DoRequest(y, app, action, now).jobs == y.jobs
  {
    hide IsNextId;
    if action == "deploy" || action == "rollback" {
      QueueRow(s, app, action, now, y);
    }
  }

  method ClaimNext(s: Store, jobs: map<nat, Job>, now: int, ghost y: Sys, ghost own: set<nat>) returns (after: map<nat, Job>)
    requires Inv(y) && y.up && Mirrors(s, y) && Tracks(jobs, y, own)
    modifies s
    ensures Mirrors(s, Next(y, Claim(now))) && Tracks(after, Next(y, Claim(now)), own)
  {
    hide Inv, IsNextId;
    after := jobs;
    var claimed := s.NextQueuedDeployment(now);
    if claimed.Ok? {
      var id := claimed.value;
      OldestUnique(y.rows, id);
      ClaimedJob(y, id);
      after := jobs[s.rows[id].serial := Job(id, s.rows[id].app, s.rows[id].action, Working(false))];
    }
  }

  method Heartbeat(s: Store, jobs: map<nat, Job>, serial: nat, now: int, storeFails: bool, ghost y: Sys, ghost own: set<nat>)
    returns (after: map<nat, Job>)
    requires Mirrors(s, y) && Tracks(jobs, y, own) && serial in jobs && jobs[serial].phase.Working?
    modifies s
    ensures Mirrors(s, DoBeat(y, serial, now, storeFails)) && Tracks(after, DoBeat(y, serial, now, storeFails), own)
  {
    after := jobs;
    var refused := storeFails;
    if !storeFails {
      var beat := s.HeartbeatDeployment(jobs[serial].id, now);
      refused := beat.Err?;
    }
    if refused {
      after := jobs[serial := jobs[serial].(phase := Working(true))];
    }
  }

  method Conclude(s: Store, jobs: map<nat, Job>, serial: nat, jobFails: bool, triggers: bool, ghost y: Sys, ghost own: set<nat>)
    returns (after: map<nat, Job>)
    requires Mirrors(s, y) && Tracks(jobs, y, own) && serial in jobs && jobs[serial].phase.Working?
    ensures Mirrors(s, DoDecide(y, serial, jobFails, triggers)) && Tracks(after, DoDecide(y, serial, jobFails, triggers), own)
  {
    var job := jobs[serial];
    var requested := s.CancellationRequested(job.id);
    var status := FinalStatus(requested == Ok(true), jobFails, job.phase.lost);
    after := jobs[serial := job.(phase := Decided(status, job.phase.lost, status == Failed && job.action == "deploy" && triggers))];
  }

  method Conclusion(s: Store, jobs: map<nat, Job>, serial: nat, now: int, ghost y: Sys, ghost own: set<nat>)
    returns (after: map<nat, Job>)
    requires Mirrors(s, y) && Tracks(jobs, y, own) && serial in jobs && jobs[serial].phase.Decided?
    modifies s
    ensures Mirrors(s, DoFinish(y, serial, now)) && Tracks(after, DoFinish(y, serial, now), own)
  {
    var job := jobs[serial];
    s.FinishDeployment(job.id, job.phase.status, now);
    if job.phase.wantsRollback {
      after := jobs[serial := job.(phase := Rollbacking)];
    } else {
      after := jobs - {serial};
    }
  }

  /** A retention run deletes what it selected; selections that have come to name an
      active row are outside the protocol. */
  method Delete(s: Store, app: nat, ids: set<nat>, ghost y: Sys)
    requires Mirrors(s, y)
    modifies s
    ensures Mirrors(s, Next(y, Prune(app, ids))) && Next(y, Prune(app, ids)).jobs == y.jobs
  {
    if forall id :: id in ids && id in s.rows && s.rows[id].app == app ==> !Active(s.rows[id]) {
      s.DeleteDeployments(app, ids);
    }
  }

  /** Whatever event comes next, the store calls it stands for have exactly its effect on
      the table and on the workers' copies. */
  method Perform(s: Store, jobs: map<nat, Job>, up: bool, e: Event, ghost y: Sys, ghost own: set<nat>)
    returns (after: map<nat, Job>)
    requires Inv(y) && up == y.up && Mirrors(s, y) && Tracks(jobs, y, own) && Foreign(e, own)
    modifies s
    ensures Mirrors(s, Next(y, e)) && Tracks(after, Next(y, e), own)
  {
    hide Inv, IsNextId, DoRequest, DoClaim, DoBeat, DoDecide, DoFinish, Queue;
    after := jobs;
    match e
    case Request(app, action, now) =>
      Request(s, app, action, now, y);
    case Claim(now) =>
      if up {
        after := ClaimNext(s, jobs, now, y, own);
      }
    case Beat(serial, now, storeFails) =>
      if serial in jobs && jobs[serial].phase.Working? {
        after := Heartbeat(s, jobs, serial, now, storeFails, y, own);
      }
    case Cancel(app, id, now) =>
      var answer := s.CancelDeployment(app, id, now);
    case GiveUp(serial) =>
      if serial in jobs && jobs[serial].phase.Working? {
        after := jobs[serial := jobs[serial].(phase := Decided(Failed, jobs[serial].phase.lost, false))];
      }
    case Decide(serial, jobFails, triggers) =>
      if serial in jobs && jobs[serial].phase.Working? {
        after := Conclude(s, jobs, serial, jobFails, triggers, y, own);
      }
    case Finish(serial, now) =>
      if serial in jobs && jobs[serial].phase.Decided? {
        after := Conclusion(s, jobs, serial, now, y, own);
      }
    case QueueRollback(serial, now) =>
      if serial in jobs && jobs[serial].phase.Rollbacking? {
        after := jobs - {serial};
        QueueRow(s, jobs[serial].app, "auto_rollback", now, y.(jobs := y.jobs - {serial}));
        QueueKeepsJobs(y.(jobs := y.jobs - {serial}), jobs[serial].app, "auto_rollback", now);
      }
    case Prune(app, ids) =>
      Delete(s, app, ids, y);
    case Crash =>
      after := map[];
    case Recover(now) =>
      if !up {
        var count := s.RecoverInterruptedDeployments(now);
      }
  }

  lemma QueueKeepsJobs(y: Sys, app: nat, action: string, now: int)
    ensures Queue(y, app, action, now).jobs == y.jobs
  {
  }

  lemma EmptyRun(y: Sys)
    ensures Run(y, []) == y
  {
  }

  lemma UpAfter(y: Sys, e: Event)
    ensures Next(y, e).up == if e.Crash? then false else if e.Recover? then true else y.up
  {
  }

  /** A whole run of the protocol is what the store and the workers' copies go through. */
  method PerformAll(s: Store, jobs: map<nat, Job>, up: bool, es: seq<Event>, ghost y: Sys) returns (after: map<nat, Job>)
    requires Inv(y) && up == y.up && Mirrors(s, y) && jobs == y.jobs
    modifies s
    ensures Mirrors(s, Run(y, es)) && after == Run(y, es).jobs
  {
    hide Inv, Next, Run;
    after := jobs;
    var running := up;
    ghost var z := y;
    EmptyRun(y);
    for i := 0 to |es|
      invariant z == Run(y, es[..i]) && Inv(z) && running == z.up && Mirrors(s, z) && after == z.jobs
    {
      assert es[..i + 1] == es[..i] + [es[i]];
      RunSnoc(y, es[..i], es[i]);
      NextInv(z, es[i]);
      UpAfter(z, es[i]);
      after := Perform(s, after, running, es[i], z, {});
      running := if es[i].Crash? then false else if es[i].Recover? then true else running;
      z := Next(z, es[i]);
      assert z.jobs - {} == z.jobs;
    }
    assert es[..|es|] == es;
  }
}
