/** One turn of a worker, runNextDeployment, over the store, while operators, other workers
    and retention do whatever they do: during the job, between the worker's last reading
    and its final write, and before it queues an automatic rollback. The turn performs the
    events Claim, Beat, Decide (or GiveUp), Finish and QueueRollback of the protocol in
    Jobs, interleaved with the others'. */
module Worker {
  import opened Options
  import opened Deployments
  import opened Jobs
  import opened Calls
  import History

  /** What happens while the job runs: an event of somebody else, or the heartbeat timer. */
  datatype Happening = Other(e: Event) | Tick(now: int, storeFails: bool)

  /** What the turn meets: whether the application and its log file open, how the runtime
      job ends, whether the error is one that triggers an automatic rollback of an
      application that wants it, and what happens in the three intervals. */
  datatype Turn = Turn(
    available: bool, jobFails: bool, triggers: bool,
    during: seq<Happening>, late: seq<Event>, after: seq<Event>, now: int)

  /** No event of others concerns this worker's job, and the process stays up. */
  predicate OnlyOthers(turn: Turn, serial: nat) {
    && (forall i :: 0 <= i < |turn.during| && turn.during[i].Other? ==> Foreign(turn.during[i].e, {serial}))
    && (forall i :: 0 <= i < |turn.late| ==> Foreign(turn.late[i], {serial}))
    && (forall i :: 0 <= i < |turn.after| ==> Foreign(turn.after[i], {serial}))
  }

  predicate Asks(e: Event, app: nat, id: nat) {
    e.Cancel? && e.app == app && e.id == id
  }

  predicate AskedWhile(hs: seq<Happening>, app: nat, id: nat) {
    exists i :: 0 <= i < |hs| && hs[i].Other? && Asks(hs[i].e, app, id)
  }

  predicate Asked(es: seq<Event>, app: nat, id: nat) {
    exists i :: 0 <= i < |es| && Asks(es[i], app, id)
  }

  predicate StoreFailsTick(hs: seq<Happening>) {
    exists i :: 0 <= i < |hs| && hs[i].Tick? && hs[i].storeFails
  }

  /** The worker's own verdict: an accepted cancel it can read wins; otherwise any error,
      a lost lease included. */
  function Verdict(turn: Turn, app: nat, id: nat): Status {
    if !turn.available then Failed
    else if AskedWhile(turn.during, app, id) then Cancelled
    else if turn.jobFails || StoreFailsTick(turn.during) then Failed
    else Successful
  }

  /** What ends up in the row: a cancel accepted at any time before the finish wins. */
  function Recorded(turn: Turn, app: nat, id: nat): Status {
    if AskedWhile(turn.during, app, id) || Asked(turn.late, app, id) then Cancelled else Verdict(turn, app, id)
  }

  /** The others' events of a run, and of the turn, in order. */
  function Others(es: seq<Event>, serial: nat): seq<Event> {
    if es == [] then [] else
    var n := |es| - 1;
    Others(es[..n], serial) + if Foreign(es[n], {serial}) then [es[n]] else []
  }

  function Happened(hs: seq<Happening>): seq<Event> {
    if hs == [] then [] else
    var n := |hs| - 1;
    Happened(hs[..n]) + if hs[n].Other? then [hs[n].e] else []
  }

  lemma OthersSnoc(es: seq<Event>, e: Event, serial: nat)
    ensures Others(es + [e], serial) == Others(es, serial) + if Foreign(e, {serial}) then [e] else []
  {
    assert (es + [e])[..|es|] == es;
  }

  // ---- The worker's row through others' events ----

  /** The worker has claimed row `id` and not finished it. */
  ghost predicate Holds(z: Sys, id: nat, r: Row, job: Job) {
    && id in z.rows && z.rows[id].status == Running
    && z.rows[id].serial == r.serial && z.rows[id].app == r.app && z.rows[id].action == r.action
    && r.serial in z.jobs && z.jobs[r.serial] == job
    && job.id == id && job.app == r.app && job.action == r.action
  }

  /** Where a turn is: after `events` from `y` the system is `z`, which the store mirrors,
      and `jobs` are the other workers'. */
  ghost predicate At(s: Store, jobs: map<nat, Job>, y: Sys, events: seq<Event>, z: Sys, own: set<nat>)
    reads s
  {
    z == Run(y, events) && Inv(z) && z.up && Mirrors(s, z) && Tracks(jobs, z, own)
  }

  /** An event of somebody else leaves the worker its row, and marks it exactly if it is
      an operator's request to cancel it. */
  lemma OtherKeepsHold(z: Sys, e: Event, id: nat, r: Row, job: Job)
    requires Inv(z) && z.up && Holds(z, id, r, job) && !job.phase.Rollbacking? && Foreign(e, {r.serial})
    ensures Next(z, e).up && Holds(Next(z, e), id, r, job)
    ensures Next(z, e).rows[id].cancelRequestedAt.Some? <==> z.rows[id].cancelRequestedAt.Some? || Asks(e, r.app, id)
  {
    hide OneActive, AllShaped, ClaimsOk, Queue, DoFinish, DoBeat;
    match e
    case Request(app, action, now) => QueueKeepsHold(z, app, action, now, id, r, job);
    case QueueRollback(serial, now) =>
      if serial in z.jobs {
        QueueKeepsHold(z.(jobs := z.jobs - {serial}), z.jobs[serial].app, "auto_rollback", now, id, r, job);
      }
    case Beat(serial, now, storeFails) => if AtWork(z, serial) { BeatKeepsHold(z, serial, now, storeFails, id, r, job); }
    case Finish(serial, now) => if AtEnd(z, serial) { FinishKeepsHold(z, serial, now, id, r, job); }
    case _ =>
  }

  lemma QueueKeepsHold(z: Sys, app: nat, action: string, now: int, id: nat, r: Row, job: Job)
    requires Holds(z, id, r, job)
    ensures var n := Queue(z, app, action, now); Holds(n, id, r, job) && n.rows[id] == z.rows[id] && n.up == z.up
  {
  }

  lemma BeatKeepsHold(z: Sys, serial: nat, now: int, storeFails: bool, id: nat, r: Row, job: Job)
    requires Holds(z, id, r, job) && AtWork(z, serial) && serial != r.serial
    ensures var n := DoBeat(z, serial, now, storeFails);
            Holds(n, id, r, job) && n.rows[id].cancelRequestedAt == z.rows[id].cancelRequestedAt && n.up == z.up
  {
  }

  lemma FinishKeepsHold(z: Sys, serial: nat, now: int, id: nat, r: Row, job: Job)
    requires JobsOk(z) && Holds(z, id, r, job) && AtEnd(z, serial) && serial != r.serial
    ensures var n := DoFinish(z, serial, now); Holds(n, id, r, job) && n.rows[id] == z.rows[id] && n.up == z.up
  {
    assert Owns(z, serial, z.jobs[serial]);
    hide JobsOk;
  }

  lemma OwnKeepsUp(z: Sys, e: Event)
    requires !e.Crash?
    ensures z.up ==> Next(z, e).up
  {
  }

  /** One event of somebody else. */
  method Yield(s: Store, jobs: map<nat, Job>, e: Event, ghost own: set<nat>, ghost y: Sys, ghost z: Sys, ghost before: seq<Event>)
    returns (others: map<nat, Job>, ghost n: Sys, ghost events: seq<Event>)
    requires At(s, jobs, y, before, z, own) && Foreign(e, own) && !e.Crash?
    modifies s
    ensures At(s, others, y, events, n, own) && n == Next(z, e) && events == before + [e]
  {
    hide Inv, Run, Next;
    RunSnoc(y, before, e);
    NextInv(z, e);
    OwnKeepsUp(z, e);
    others := Perform(s, jobs, true, e, z, own);
    n, events := Next(z, e), before + [e];
  }

  /** One step of this worker, whose effect on the store has just been made. */
  ghost method Step(y: Sys, z: Sys, before: seq<Event>, e: Event) returns (n: Sys, events: seq<Event>)
    requires Run(y, before) == z && Inv(z) && z.up && !e.Crash?
    ensures n == Next(z, e) && events == before + [e] && Run(y, events) == n && Inv(n) && n.up
  {
    hide Inv, Run, Next;
    RunSnoc(y, before, e);
    NextInv(z, e);
    OwnKeepsUp(z, e);
    n, events := Next(z, e), before + [e];
  }

  /** Others' events after the last reading. */
  method YieldAll(s: Store, jobs: map<nat, Job>, es: seq<Event>, id: nat, ghost r: Row, ghost job: Job,
                  ghost y: Sys, ghost z: Sys, ghost before: seq<Event>)
    returns (others: map<nat, Job>, ghost n: Sys, ghost events: seq<Event>)
    requires At(s, jobs, y, before, z, {r.serial}) && Holds(z, id, r, job) && !job.phase.Rollbacking?
    requires forall i :: 0 <= i < |es| ==> Foreign(es[i], {r.serial})
    modifies s
    ensures At(s, others, y, events, n, {r.serial}) && Holds(n, id, r, job)
    ensures Others(events, r.serial) == Others(before, r.serial) + es
    ensures n.rows[id].cancelRequestedAt.Some? <==> z.rows[id].cancelRequestedAt.Some? || Asked(es, r.app, id)
  {
    hide Inv, Run, Next, Holds, At;
    others, n, events := jobs, z, before;
    HeldRow(z, id, r, job);
    for i := 0 to |es|
      invariant At(s, others, y, events, n, {r.serial}) && Holds(n, id, r, job)
      invariant Others(events, r.serial) == Others(before, r.serial) + es[..i]
      invariant id in n.rows && id in z.rows
      invariant n.rows[id].cancelRequestedAt.Some? <==> z.rows[id].cancelRequestedAt.Some? || Asked(es[..i], r.app, id)
    {
      AskedStep(es, i, r.app, id);
      OthersSnoc(events, es[i], r.serial);
      assert es[..i + 1] == es[..i] + [es[i]];
      AtHold(s, others, y, events, n, es[i], id, r, job);
      others, n, events := Yield(s, others, es[i], {r.serial}, y, n, events);
    }
    assert es[..|es|] == es;
  }

  lemma AtHold(s: Store, jobs: map<nat, Job>, y: Sys, events: seq<Event>, z: Sys, e: Event, id: nat, r: Row, job: Job)
    requires At(s, jobs, y, events, z, {r.serial}) && Holds(z, id, r, job) && !job.phase.Rollbacking? && Foreign(e, {r.serial})
    ensures Holds(Next(z, e), id, r, job) && id in z.rows && id in Next(z, e).rows
    ensures Next(z, e).rows[id].cancelRequestedAt.Some? <==> z.rows[id].cancelRequestedAt.Some? || Asks(e, r.app, id)
  {
    hide Inv, Run, Next;
    OtherKeepsHold(z, e, id, r, job);
  }

  lemma AskedStep(es: seq<Event>, i: nat, app: nat, id: nat)
    requires i < |es|
    ensures Asked(es[..i + 1], app, id) <==> Asked(es[..i], app, id) || Asks(es[i], app, id)
  {
    var shorter, longer := es[..i], es[..i + 1];
    assert longer[i] == es[i];
    assert forall j :: 0 <= j < i ==> longer[j] == shorter[j];
  }

  lemma HappeningStep(hs: seq<Happening>, i: nat, app: nat, id: nat)
    requires i < |hs|
    ensures AskedWhile(hs[..i + 1], app, id) <==> AskedWhile(hs[..i], app, id) || (hs[i].Other? && Asks(hs[i].e, app, id))
    ensures StoreFailsTick(hs[..i + 1]) <==> StoreFailsTick(hs[..i]) || (hs[i].Tick? && hs[i].storeFails)
    ensures Happened(hs[..i + 1]) == Happened(hs[..i]) + if hs[i].Other? then [hs[i].e] else []
  {
    var shorter, longer := hs[..i], hs[..i + 1];
    assert longer[i] == hs[i] && longer[..i] == shorter;
    assert forall j :: 0 <= j < i ==> longer[j] == shorter[j];
  }

  /** While the runtime job runs. The heartbeat stops at the first one that is refused. */
  method RunHappenings(s: Store, jobs: map<nat, Job>, hs: seq<Happening>, id: nat, ghost r: Row,
                       ghost y: Sys, ghost z: Sys, ghost before: seq<Event>)
    returns (others: map<nat, Job>, lost: bool, ghost n: Sys, ghost events: seq<Event>)
    requires At(s, jobs, y, before, z, {r.serial}) && Holds(z, id, r, Job(id, r.app, r.action, Working(false)))
    requires z.rows[id].cancelRequestedAt == None
    requires forall i :: 0 <= i < |hs| && hs[i].Other? ==> Foreign(hs[i].e, {r.serial})
    modifies s
    ensures At(s, others, y, events, n, {r.serial}) && Holds(n, id, r, Job(id, r.app, r.action, Working(lost)))
    ensures Others(events, r.serial) == Others(before, r.serial) + Happened(hs)
    ensures n.rows[id].cancelRequestedAt.Some? <==> AskedWhile(hs, r.app, id)
    ensures !AskedWhile(hs, r.app, id) ==> (lost <==> StoreFailsTick(hs))
  {
    hide Inv, Run, Next, Holds, At;
    others, n, events, lost := jobs, z, before, false;
    HeldRow(z, id, r, Job(id, r.app, r.action, Working(false)));
    for i := 0 to |hs|
      invariant At(s, others, y, events, n, {r.serial}) && Holds(n, id, r, Job(id, r.app, r.action, Working(lost)))
      invariant Others(events, r.serial) == Others(before, r.serial) + Happened(hs[..i])
      invariant id in n.rows
      invariant n.rows[id].cancelRequestedAt.Some? <==> AskedWhile(hs[..i], r.app, id)
      invariant !AskedWhile(hs[..i], r.app, id) ==> (lost <==> StoreFailsTick(hs[..i]))
    {
      HappeningStep(hs, i, r.app, id);
      match hs[i]
      case Other(e) =>
        OthersSnoc(events, e, r.serial);
        AtHold(s, others, y, events, n, e, id, r, Job(id, r.app, r.action, Working(lost)));
        others, n, events := Yield(s, others, e, {r.serial}, y, n, events);
      case Tick(now, storeFails) =>
        if !lost {
          OthersSnoc(events, Beat(r.serial, now, storeFails), r.serial);
          lost, n, events := TickOnce(s, others, id, now, storeFails, r, y, n, events);
          HeldRow(n, id, r, Job(id, r.app, r.action, Working(lost)));
        }
    }
    assert hs[..|hs|] == hs;
  }

  lemma HeldRow(z: Sys, id: nat, r: Row, job: Job)
    requires Holds(z, id, r, job)
    ensures id in z.rows
  {
  }

  /** heartbeatDeployment's timer fires. */
  method TickOnce(s: Store, jobs: map<nat, Job>, id: nat, now: int, storeFails: bool, ghost r: Row,
                  ghost y: Sys, ghost z: Sys, ghost before: seq<Event>)
    returns (lost: bool, ghost n: Sys, ghost events: seq<Event>)
    requires At(s, jobs, y, before, z, {r.serial}) && Holds(z, id, r, Job(id, r.app, r.action, Working(false)))
    modifies s
    ensures At(s, jobs, y, events, n, {r.serial}) && Holds(n, id, r, Job(id, r.app, r.action, Working(lost)))
    ensures events == before + [Beat(r.serial, now, storeFails)]
    ensures n.rows[id].cancelRequestedAt == z.rows[id].cancelRequestedAt
    ensures lost <==> storeFails || z.rows[id].cancelRequestedAt.Some?
  {
    hide Inv, Run;
    lost := true;
    if !storeFails {
      var beat := s.HeartbeatDeployment(id, now);
      lost := beat.Err?;
    }
    n, events := Step(y, z, before, Beat(r.serial, now, storeFails));
    assert n.jobs - {r.serial} == z.jobs - {r.serial};
  }

  /** The last reading and the verdict. */
  method Judge(s: Store, jobs: map<nat, Job>, id: nat, available: bool, jobFails: bool, triggers: bool, lost: bool,
               ghost r: Row, ghost y: Sys, ghost z: Sys, ghost before: seq<Event>)
    returns (status: Status, rollback: bool, ghost job: Job, ghost n: Sys, ghost events: seq<Event>)
    requires At(s, jobs, y, before, z, {r.serial}) && Holds(z, id, r, Job(id, r.app, r.action, Working(lost)))
    modifies s
    ensures At(s, jobs, y, events, n, {r.serial}) && Holds(n, id, r, job)
    ensures Others(events, r.serial) == Others(before, r.serial)
    ensures n.rows[id].cancelRequestedAt == z.rows[id].cancelRequestedAt
    ensures job.phase.Decided? && job.phase.status == status && job.phase.wantsRollback == rollback
    ensures rollback == (available && status == Failed && r.action == "deploy" && triggers)
    ensures status == if !available then Failed
                      else if z.rows[id].cancelRequestedAt.Some? then Cancelled
                      else if jobFails || lost then Failed else Successful
  {
    hide Inv, Run;
    var cancelled, err := false, true;
    if available {
      err := jobFails || lost;
      var requested := s.CancellationRequested(id);
      cancelled := requested == Ok(true);
      OthersSnoc(before, Decide(r.serial, jobFails, triggers), r.serial);
      n, events := Step(y, z, before, Decide(r.serial, jobFails, triggers));
    } else {
      OthersSnoc(before, GiveUp(r.serial), r.serial);
      n, events := Step(y, z, before, GiveUp(r.serial));
    }
    status := if cancelled then Cancelled else if err then Failed else Successful;
    rollback := available && status == Failed && s.rows[id].action == "deploy" && triggers;
    job := n.jobs[r.serial];
    assert n.jobs - {r.serial} == z.jobs - {r.serial};
  }

  /** Records the status, unless a cancel came in after the worker's last reading. */
  method Record(s: Store, jobs: map<nat, Job>, id: nat, now: int, status: Status, rollback: bool, ghost r: Row, ghost job: Job,
                ghost y: Sys, ghost z: Sys, ghost before: seq<Event>)
    returns (ghost n: Sys, ghost events: seq<Event>)
    requires At(s, jobs, y, before, z, {r.serial}) && Holds(z, id, r, job)
    requires job.phase.Decided? && job.phase.status == status && job.phase.wantsRollback == rollback
    modifies s
    ensures At(s, jobs, y, events, n, if rollback then {r.serial} else {})
    ensures rollback ==> n.jobs[r.serial].phase.Rollbacking? && n.jobs[r.serial].app == r.app
    ensures Others(events, r.serial) == Others(before, r.serial)
    ensures id in n.rows && n.rows[id].serial == r.serial && r.serial < n.nextSerial
    ensures n.rows[id].status == if z.rows[id].cancelRequestedAt.Some? then Cancelled else status
    ensures Progress(n.rows[id].status) == 2
  {
    hide Inv, Run;
    s.FinishDeployment(id, status, now);
    OthersSnoc(before, Event.Finish(r.serial, now), r.serial);
    SerialIsOld(z, id, status, r, job);
    n, events := Step(y, z, before, Event.Finish(r.serial, now));
    assert n.jobs - {r.serial} == z.jobs - {r.serial};
  }

  lemma SerialIsOld(z: Sys, id: nat, status: Status, r: Row, job: Job)
    requires Inv(z) && Holds(z, id, r, job) && job.phase.Decided? && job.phase.status == status
    ensures r.serial < z.nextSerial && Progress(status) == 2
  {
  }

  // ---- After the finish ----

  /** Others leave a waiting rollback alone. */
  lemma OtherKeepsJob(z: Sys, e: Event, serial: nat)
    requires Inv(z) && serial in z.jobs && Foreign(e, {serial})
    ensures serial in Next(z, e).jobs && Next(z, e).jobs[serial] == z.jobs[serial]
  {
    hide OneActive, AllShaped, Serials, JobsOk;
    match e
    case Claim(now) =>
      var oldest := OldestQueued(z.rows);
      if z.up && oldest.Some? {
        assert z.rows[oldest.value].serial !in z.claims;
      }
    case _ =>
  }

  /** Others' events between the finish and the end of the turn, during which the row of
      a finished deployment only stays or is deleted. */
  method YieldRest(s: Store, jobs: map<nat, Job>, es: seq<Event>, ghost own: set<nat>, ghost serial: nat,
                   ghost y: Sys, ghost z: Sys, ghost before: seq<Event>)
    returns (others: map<nat, Job>, ghost n: Sys, ghost events: seq<Event>)
    requires At(s, jobs, y, before, z, own) && own <= {serial}
    requires forall i :: 0 <= i < |es| ==> Foreign(es[i], {serial})
    modifies s
    ensures At(s, others, y, events, n, own) && RowsEvolve(z, n)
    ensures serial in own ==> serial in z.jobs && serial in n.jobs && n.jobs[serial] == z.jobs[serial]
    ensures Others(events, serial) == Others(before, serial) + es
  {
    hide Inv, Run, Next, RowsEvolve;
    others, n, events := jobs, z, before;
    StaysSame(z);
    for i := 0 to |es|
      invariant At(s, others, y, events, n, own) && RowsEvolve(z, n)
      invariant serial in own ==> serial in z.jobs && serial in n.jobs && n.jobs[serial] == z.jobs[serial]
      invariant Others(events, serial) == Others(before, serial) + es[..i]
    {
      OthersSnoc(events, es[i], serial);
      assert es[..i + 1] == es[..i] + [es[i]];
      NextEvolves(n, es[i]);
      EvolvesTransitive(z, n, Next(n, es[i]));
      if serial in own {
        OtherKeepsJob(n, es[i], serial);
      }
      others, n, events := Yield(s, others, es[i], own, y, n, events);
    }
    assert es[..|es|] == es;
  }

  lemma StaysSame(z: Sys)
    requires Inv(z)
    ensures RowsEvolve(z, z)
  {
    hide OneActive, ClaimsOk, JobsOk, ValidAction;
  }

  /** The automatic rollback of a deployment the worker saw fail. */
  method QueueAutoRollback(s: Store, jobs: map<nat, Job>, app: nat, now: int, ghost serial: nat,
                           ghost y: Sys, ghost z: Sys, ghost before: seq<Event>)
    returns (ghost n: Sys, ghost events: seq<Event>)
    requires At(s, jobs, y, before, z, {serial})
    requires serial in z.jobs && z.jobs[serial].phase.Rollbacking? && z.jobs[serial].app == app
    modifies s
    ensures At(s, jobs, y, events, n, {}) && RowsEvolve(z, n)
    ensures Others(events, serial) == Others(before, serial)
    ensures s.rows == if forall i :: i in z.rows && z.rows[i].app == app ==> z.rows[i].status != Queued && z.rows[i].status != Running
                      then z.rows[NextId(z.rows) := Row(app, z.nextSerial, Queued, "auto_rollback", 0, now, None, None, None, None)]
                      else z.rows
  {
    hide Inv, Run, RowsEvolve, IsNextId;
    QueueRollbackExactly(z, serial, now);
    QueueRow(s, app, "auto_rollback", now, z.(jobs := z.jobs - {serial}));
    QueueKeepsJobs(z.(jobs := z.jobs - {serial}), app, "auto_rollback", now);
    NextEvolves(z, QueueRollback(serial, now));
    OthersSnoc(before, QueueRollback(serial, now), serial);
    n, events := Step(y, z, before, QueueRollback(serial, now));
    assert n.jobs - {} == n.jobs;
  }

  // ---- The turn ----

  /** The claimed job up to its recorded status and, if there is one, its rollback.
      `status` is the worker's own verdict. */
  method RunJob(s: Store, jobs: map<nat, Job>, id: nat, app: nat, turn: Turn, ghost r: Row, ghost y: Sys, ghost z: Sys, ghost before: seq<Event>)
    returns (others: map<nat, Job>, status: Status, ghost n: Sys, ghost events: seq<Event>)
    requires At(s, jobs, y, before, z, {r.serial}) && Holds(z, id, r, Job(id, r.app, r.action, Working(false)))
    requires z.rows[id].cancelRequestedAt == None && app == r.app && OnlyOthers(turn, r.serial)
    modifies s
    ensures At(s, others, y, events, n, {}) && status == Verdict(turn, app, id)
    ensures Others(events, r.serial) == Others(before, r.serial) + Happened(turn.during) + turn.late + turn.after
    ensures id in n.rows && n.rows[id].serial == r.serial ==> n.rows[id].status == Recorded(turn, app, id)
  {
    hide Inv, Run, Next, Holds, At, RowsEvolve, Others, Happened;
    ghost var m: Sys, job: Job;
    var lost, rollback;
    others, lost, m, events := RunHappenings(s, jobs, turn.during, id, r, y, z, before);
    HeldRow(m, id, r, Job(id, r.app, r.action, Working(lost)));
    status, rollback, job, m, events := Judge(s, others, id, turn.available, turn.jobFails, turn.triggers, lost, r, y, m, events);
    HeldRow(m, id, r, job);
    others, n, events := YieldAll(s, others, turn.late, id, r, job, y, m, events);
    HeldRow(n, id, r, job);
    m, events := Record(s, others, id, turn.now, status, rollback, r, job, y, n, events);
    ghost var recorded := m;
    others, n, events := YieldRest(s, others, turn.after, if rollback then {r.serial} else {}, r.serial, y, m, events);
    if rollback {
      m := n;
      n, events := QueueAutoRollback(s, others, app, turn.now, r.serial, y, m, events);
      EvolvesTransitive(recorded, m, n);
    }
    FinishedStays(recorded, n, id, r.serial);
  }

  lemma FinishedStays(y: Sys, z: Sys, id: nat, serial: nat)
    requires RowsEvolve(y, z) && id in y.rows && y.rows[id].serial == serial < y.nextSerial && Progress(y.rows[id].status) == 2
    ensures id in z.rows && z.rows[id].serial == serial ==> z.rows[id] == y.rows[id]
  {
    hide Evolves;
    if id in z.rows && z.rows[id].serial == serial {
      assert Evolves(y.rows[id], z.rows[id]);
      EndedIsFrozen(y.rows[id], z.rows[id]);
    }
  }

  lemma EndedIsFrozen(r: Row, q: Row)
    requires Evolves(r, q) && Progress(r.status) == 2
    ensures q == r
  {
  }

  /** The claim, and then the whole job: everything others do goes on in between. */
  method RunNextDeployment(s: Store, jobs: map<nat, Job>, turn: Turn, ghost y: Sys)
    returns (others: map<nat, Job>, claimed: Option<nat>, status: Status, ghost n: Sys, ghost events: seq<Event>)
    requires Inv(y) && y.up && Mirrors(s, y) && jobs == y.jobs
    requires forall id :: IsOldestQueued(y.rows, id) ==> OnlyOthers(turn, y.rows[id].serial)
    modifies s
    ensures n == Run(y, events) && Inv(n) && n.up && Mirrors(s, n) && others == n.jobs
    ensures claimed == None ==> events == [] && forall id :: id in y.rows ==> y.rows[id].status != Queued
    ensures claimed.Some? ==> IsOldestQueued(y.rows, claimed.value)
    ensures claimed.Some? ==>
              var r := y.rows[claimed.value];
              && status == Verdict(turn, r.app, claimed.value)
              && Others(events, r.serial) == [Claim(turn.now)] + Happened(turn.during) + turn.late + turn.after
              && (claimed.value in n.rows && n.rows[claimed.value].serial == r.serial ==>
                   n.rows[claimed.value].status == Recorded(turn, r.app, claimed.value))
  {
    hide Inv, Run, IsNextId, Others, Happened;
    events, status, others, n := [], Failed, jobs, y;
    EmptyRun(y);
    var next := s.NextQueuedDeployment(turn.now);
    if next.Err? {
      claimed := None;
      return;
    }
    var id := next.value;
    claimed := Some(id);
    OldestUnique(y.rows, id);
    ClaimedJob(y, id);
    ghost var r := y.rows[id];
    OthersSnoc([], Claim(turn.now), r.serial);
    OthersEmpty(r.serial);
    ghost var z: Sys;
    z, events := Step(y, y, [], Claim(turn.now));
    assert z.jobs - {r.serial} == y.jobs;
    assert Holds(z, id, r, Job(id, r.app, r.action, Working(false)));
    others, status, n, events := RunJob(s, jobs, id, s.rows[id].app, turn, r, y, z, events);
    assert n.jobs - {} == n.jobs;
  }

  lemma OthersEmpty(serial: nat)
    ensures Others([], serial) == []
  {
  }

  /** From the decision to the artifact: the row an automatic rollback adds is one whose
      turn, if it succeeds, puts the latest successful release on top again. */
  lemma AutoRollbackRestoresLatest(y: Sys, serial: nat, now: int, i: nat, h: History.Rows, id: nat, finished: int, a: History.Attempt)
    requires serial in y.jobs && y.jobs[serial].phase.Rollbacking? && a.Succeeded?
    requires var z := Next(y, QueueRollback(serial, now)); i in z.rows && (i in y.rows ==> z.rows[i] != y.rows[i])
    ensures var row := Next(y, QueueRollback(serial, now)).rows[i];
            var r := History.After(h, id, finished, History.TurnFor(row.action, a))[0];
            && row.app == y.jobs[serial].app && row.status == Queued
            && (r.status == Successful ==> History.Latest(h).Some? && History.SameRelease(r, History.Latest(h).value))
  {
    hide IsNextId;
    QueueRollbackExactly(y, serial, now);
    History.ActionDecides(h, id, finished, "auto_rollback", a);
  }
}
