/** The queue drains: every worker step uses up part of a finite potential that only
    external requests can replenish. */
module Drain {
  import opened Deployments
  import opened Jobs

  // ---- Sums over finite maps ----

  ghost function Sum(m: map<nat, nat>): nat
    decreases |m|
  {
    if m == map[] then 0 else
    var k :| k in m;
    assert |m - {k}| < |m| by { assert (m - {k}).Keys == m.Keys - {k}; }
    m[k] + Sum(m - {k})
  }

  lemma {:induction false} SumWithout(m: map<nat, nat>, k: nat)
    requires k in m
    ensures Sum(m) == m[k] + Sum(m - {k})
    decreases |m|
  {
    var x :| x in m && Sum(m) == m[x] + Sum(m - {x});
    if x != k {
      assert (m - {x}).Keys == m.Keys - {x} && (m - {k}).Keys == m.Keys - {k};
      SumWithout(m - {x}, k);
      SumWithout(m - {k}, x);
      assert m - {x} - {k} == m - {k} - {x};
    }
  }

  /** The sum with key `k` set to `v` (present or not before). */
  lemma SumWith(m: map<nat, nat>, k: nat, v: nat)
    ensures Sum(m[k := v]) == v + Sum(m - {k})
    ensures k !in m ==> m - {k} == m
    ensures Sum(m - {k}) <= Sum(m)
  {
    SumWithout(m[k := v], k);
    assert m[k := v] - {k} == m - {k};
    if k in m { SumWithout(m, k); } else { assert m - {k} == m; }
  }

  // ---- Potential ----

  /** The weight of a queued row, and of a job in each phase. */
  datatype Weights = Weights(
    queuedDeploy: nat, queuedOther: nat, workDeploy: nat, workOther: nat,
    decidedRollback: nat, decidedNo: nat, rollbacking: nat)

  function RowWeight(r: Row, w: Weights): nat {
    if r.action == "deploy" then w.queuedDeploy else w.queuedOther
  }

  function JobWeight(j: Job, w: Weights): nat {
    match j.phase
    case Working(_) => if j.action == "deploy" then w.workDeploy else w.workOther
    case Decided(_, _, wantsRollback) => if wantsRollback then w.decidedRollback else w.decidedNo
    case Rollbacking => w.rollbacking
  }

  function RowWeights(t: Table, w: Weights): map<nat, nat> {
    map i | i in t && t[i].status == Queued :: RowWeight(t[i], w)
  }

  function JobWeights(jobs: map<nat, Job>, w: Weights): map<nat, nat> {
    map s | s in jobs :: JobWeight(jobs[s], w)
  }

  ghost function Potential(y: Sys, w: Weights): nat {
    Sum(RowWeights(y.rows, w)) + Sum(JobWeights(y.jobs, w))
  }

  /** Weights under which a claim costs at least `claim` and any other worker step at
      least `step`. */
  predicate Pays(w: Weights, claim: nat, step: nat) {
    && w.queuedDeploy >= w.workDeploy + claim && w.queuedOther >= w.workOther + claim
    && w.workDeploy >= w.decidedRollback + step && w.workDeploy >= w.decidedNo + step
    && w.workOther >= w.decidedNo + step
    && w.decidedRollback >= w.rollbacking + step && w.decidedNo >= step
    && w.rollbacking >= w.queuedOther + step
  }

  /** The event is a claim that takes a row. */
  predicate Claims(y: Sys, e: Event) {
    e.Claim? && y.up && exists i :: i in y.rows && y.rows[i].status == Queued
  }

  /** The event moves some claimed job one phase on. */
  predicate Moves(y: Sys, e: Event) {
    match e
    case GiveUp(serial) => AtWork(y, serial)
    case Decide(serial, _, _) => AtWork(y, serial)
    case Finish(serial, _) => AtEnd(y, serial)
    case QueueRollback(serial, _) => serial in y.jobs && y.jobs[serial].phase.Rollbacking?
    case _ => false
  }

  function Cost(y: Sys, e: Event, claim: nat, step: nat): nat {
    if Claims(y, e) then claim else if Moves(y, e) then step else 0
  }

  /** What an accepted external request adds. */
  function Gain(y: Sys, e: Event, w: Weights): nat {
    if e.Request? && !HasActive(y.rows, e.app) then
      if e.action == "deploy" then w.queuedDeploy else if e.action == "rollback" then w.queuedOther else 0
    else 0
  }

  lemma QueuePotential(y: Sys, app: nat, action: string, now: int, w: Weights)
    ensures Potential(Queue(y, app, action, now), w)
            == Potential(y, w) + if HasActive(y.rows, app) then 0 else RowWeight(NewRow(app, 0, action, now), w)
  {
    if !HasActive(y.rows, app) {
      var z := Queue(y, app, action, now);
      var id := NextId(y.rows);
      var v := RowWeight(NewRow(app, 0, action, now), w);
      assert RowWeights(z.rows, w) == RowWeights(y.rows, w)[id := v];
      SumWith(RowWeights(y.rows, w), id, v);
    }
  }

  lemma PhasePotential(y: Sys, serial: nat, p: Phase, w: Weights)
    requires serial in y.jobs
    ensures Potential(SetPhase(y, serial, p), w) + JobWeight(y.jobs[serial], w)
            == Potential(y, w) + JobWeight(y.jobs[serial].(phase := p), w)
  {
    var z := SetPhase(y, serial, p);
    var m := JobWeights(y.jobs, w);
    assert JobWeights(z.jobs, w) == m[serial := JobWeight(y.jobs[serial].(phase := p), w)];
    SumWith(m, serial, JobWeight(y.jobs[serial].(phase := p), w));
    SumWithout(m, serial);
  }

  lemma DropPotential(y: Sys, serial: nat, w: Weights)
    requires serial in y.jobs
    ensures Potential(y.(jobs := y.jobs - {serial}), w) + JobWeight(y.jobs[serial], w) == Potential(y, w)
  {
    assert JobWeights(y.jobs - {serial}, w) == JobWeights(y.jobs, w) - {serial};
    SumWithout(JobWeights(y.jobs, w), serial);
  }

  lemma ClaimPotential(y: Sys, id: nat, now: int, w: Weights)
    requires Inv(y) && y.up && id in y.rows && y.rows[id].status == Queued
    ensures var r := y.rows[id];
            Potential(DoClaim(y, id, now), w) + RowWeight(r, w)
            <= Potential(y, w) + JobWeight(Job(id, r.app, r.action, Working(false)), w)
  {
    hide Inv;
    var z := DoClaim(y, id, now);
    var r := y.rows[id];
    var v := JobWeight(Job(id, r.app, r.action, Working(false)), w);
    assert RowWeights(z.rows, w) == RowWeights(y.rows, w) - {id};
    SumWithout(RowWeights(y.rows, w), id);
    assert JobWeights(z.jobs, w) == JobWeights(y.jobs, w)[r.serial := v];
    SumWith(JobWeights(y.jobs, w), r.serial, v);
  }

  /** Rows that are not queued weigh nothing, however they change. */
  lemma SameQueuePotential(y: Sys, z: Sys, w: Weights)
    requires z.jobs == y.jobs
    requires forall i :: i in z.rows && z.rows[i].status == Queued ==> i in y.rows && y.rows[i] == z.rows[i]
    requires forall i :: i in y.rows && y.rows[i].status == Queued ==> i in z.rows && y.rows[i] == z.rows[i]
    ensures Potential(z, w) == Potential(y, w)
  {
    assert RowWeights(z.rows, w) == RowWeights(y.rows, w);
  }

  lemma CancelPotential(y: Sys, app: nat, id: nat, now: int, w: Weights)
    requires id in y.rows && Cancellable(y.rows[id], app)
    ensures Potential(y.(rows := y.rows[id := CancelledRow(y.rows[id], now)]), w) <= Potential(y, w)
  {
    var z := y.(rows := y.rows[id := CancelledRow(y.rows[id], now)]);
    assert RowWeights(z.rows, w) == RowWeights(y.rows, w) - {id};
    SumWith(RowWeights(y.rows, w), id, 0);
  }

  lemma FinishPotential(y: Sys, serial: nat, now: int, w: Weights, claim: nat, step: nat)
    requires Inv(y) && AtEnd(y, serial) && Pays(w, claim, step)
    ensures Potential(DoFinish(y, serial, now), w) + step <= Potential(y, w)
  {
    var job := y.jobs[serial];
    assert Owns(y, serial, job) && SoundDecision(job.phase);
    hide Inv, Owns;
    var done := y.(rows := y.rows[job.id := Finished(y.rows[job.id], job.phase.status, now)]);
    SameQueuePotential(y, done, w);
    if job.phase.wantsRollback {
      PhasePotential(done, serial, Rollbacking, w);
    } else {
      DropPotential(done, serial, w);
    }
  }

  lemma BeatPotential(y: Sys, serial: nat, now: int, storeFails: bool, w: Weights)
    requires AtWork(y, serial)
    ensures Potential(DoBeat(y, serial, now, storeFails), w) == Potential(y, w)
  {
    var id := y.jobs[serial].id;
    if !storeFails && id in y.rows && Renewable(y.rows[id]) {
      SameQueuePotential(y, DoBeat(y, serial, now, storeFails), w);
    } else {
      PhasePotential(y, serial, Working(true), w);
    }
  }

  /** One event: what it costs plus what is left is at most what there was plus what an
      external request brought in. */
  lemma NextPotential(y: Sys, e: Event, w: Weights, claim: nat, step: nat)
    requires Inv(y) && Pays(w, claim, step)
    ensures Potential(Next(y, e), w) + Cost(y, e, claim, step) <= Potential(y, w) + Gain(y, e, w)
  {
    hide Inv, Potential, DoClaim, DoBeat, DoFinish, Queue;
    match e
    case Request(app, action, now) =>
      QueuePotential(y, app, action, now, w);
      CountersWeighNothing(Queue(y, app, action, now), DoRequest(y, app, action, now), w);
    case Claim(now) =>
      var oldest := OldestQueued(y.rows);
      if y.up && oldest.Some? { ClaimPotential(y, oldest.value, now, w); }
    case Beat(serial, now, storeFails) => if AtWork(y, serial) { BeatPotential(y, serial, now, storeFails, w); }
    case Cancel(app, id, now) =>
      if id in y.rows && Cancellable(y.rows[id], app) { CancelPotential(y, app, id, now, w); }
    case GiveUp(serial) =>
      if AtWork(y, serial) { PhasePotential(y, serial, Decided(Failed, y.jobs[serial].phase.lost, false), w); }
    case Decide(serial, jobFails, triggers) =>
      if AtWork(y, serial) { PhasePotential(y, serial, DoDecide(y, serial, jobFails, triggers).jobs[serial].phase, w); }
    case Finish(serial, now) => if AtEnd(y, serial) { FinishPotential(y, serial, now, w, claim, step); }
    case QueueRollback(serial, now) =>
      if serial in y.jobs && y.jobs[serial].phase.Rollbacking? {
        DropPotential(y, serial, w);
        QueuePotential(y.(jobs := y.jobs - {serial}), y.jobs[serial].app, "auto_rollback", now, w);
      }
    case Prune(app, ids) => PrunePotential(y, app, ids, w);
    case Crash => CrashPotential(y, w);
    case Recover(now) => RecoverPotential(y, now, w);
  }

  lemma CountersWeighNothing(y: Sys, z: Sys, w: Weights)
    ensures z.rows == y.rows && z.jobs == y.jobs ==> Potential(z, w) == Potential(y, w)
  {
  }

  lemma PrunePotential(y: Sys, app: nat, ids: set<nat>, w: Weights)
    ensures Potential(Next(y, Prune(app, ids)), w) == Potential(y, w)
  {
    SameQueuePotential(y, Next(y, Prune(app, ids)), w);
  }

  lemma CrashPotential(y: Sys, w: Weights)
    ensures Potential(Next(y, Crash), w) <= Potential(y, w)
  {
    assert JobWeights(map[], w) == map[];
  }

  lemma RecoverPotential(y: Sys, now: int, w: Weights)
    ensures Potential(Next(y, Recover(now)), w) == Potential(y, w)
  {
    var z := Next(y, Recover(now));
    SameQueuePotential(y, z, w);
    CountersWeighNothing(z, z.(up := true), w);
  }

  // ---- How often rows are claimed ----

  const CLAIMS := Weights(2, 1, 1, 0, 1, 0, 1)

  lemma {:induction false} ClaimBudget(y: Sys, es: seq<Event>)
    requires Inv(y) && |y.claims| + Potential(y, CLAIMS) <= 2 * y.deploys + y.rollbacks
    ensures var z := Run(y, es); |z.claims| + Potential(z, CLAIMS) <= 2 * z.deploys + z.rollbacks
    decreases es
  {
    if es != [] {
      var n := Next(y, es[0]);
      NextInv(y, es[0]);
      NextPotential(y, es[0], CLAIMS, 1, 0);
      ClaimCounts(y, es[0]);
      ClaimBudget(n, es[1..]);
    }
  }

  lemma ClaimCounts(y: Sys, e: Event)
    ensures var n := Next(y, e);
            && |n.claims| <= |y.claims| + Cost(y, e, 1, 0)
            && 2 * n.deploys + n.rollbacks == 2 * y.deploys + y.rollbacks + Gain(y, e, CLAIMS)
  {
  }

  predicate Idle(y: Sys, app: nat) {
    forall i :: i in y.rows && y.rows[i].app == app ==> y.rows[i].status != Queued && y.rows[i].status != Running
  }

  /** How many requests for `action` a run accepts. */
  ghost function Accepted(y: Sys, es: seq<Event>, action: string): nat
    decreases es
  {
    if es == [] then 0 else
    (if es[0].Request? && es[0].action == action && Idle(y, es[0].app) then 1 else 0) + Accepted(Next(y, es[0]), es[1..], action)
  }

  /** How often a run claims a row. */
  ghost function Claimings(y: Sys, es: seq<Event>): nat
    decreases es
  {
    if es == [] then 0 else
    (if es[0].Claim? && y.up && exists i :: i in y.rows && y.rows[i].status == Queued then 1 else 0) + Claimings(Next(y, es[0]), es[1..])
  }

  lemma StepCounts(y: Sys, e: Event)
    ensures var z := Next(y, e);
            && z.deploys == y.deploys + (if e.Request? && e.action == "deploy" && Idle(y, e.app) then 1 else 0)
            && z.rollbacks == y.rollbacks + (if e.Request? && e.action == "rollback" && Idle(y, e.app) then 1 else 0)
            && |z.claims| == |y.claims| + if e.Claim? && y.up && exists i :: i in y.rows && y.rows[i].status == Queued then 1 else 0
  {
    hide IsNextId;
    match e
    case Request(app, action, now) => RequestExactly(y, app, action, now);
    case Claim(now) => ClaimExactly(y, now);
    case QueueRollback(serial, now) =>
      if serial in y.jobs && y.jobs[serial].phase.Rollbacking? { QueueRollbackExactly(y, serial, now); }
    case _ =>
  }

  lemma {:induction false} RunCounts(y: Sys, es: seq<Event>)
    ensures var z := Run(y, es);
            && z.deploys == y.deploys + Accepted(y, es, "deploy") && z.rollbacks == y.rollbacks + Accepted(y, es, "rollback")
            && |z.claims| == |y.claims| + Claimings(y, es)
    decreases es
  {
    hide Next, Idle;
    if es != [] {
      StepCounts(y, es[0]);
      RunCounts(Next(y, es[0]), es[1..]);
    }
  }

  /** In every run from an empty table, rows are claimed at most twice per accepted
      deployment and once per accepted rollback: a failed deployment queues at most one
      automatic rollback and no rollback queues another. */
  lemma ClaimsAreBounded(es: seq<Event>)
    ensures Claimings(Initial(), es) <= 2 * Accepted(Initial(), es, "deploy") + Accepted(Initial(), es, "rollback")
    ensures |Run(Initial(), es).claims| == Claimings(Initial(), es)
  {
    hide Inv, Next, Run, Potential, Accepted, Claimings;
    InitialInv();
    NothingWeighsNothing();
    ClaimBudget(Initial(), es);
    RunCounts(Initial(), es);
  }

  lemma NothingWeighsNothing()
    ensures Potential(Initial(), CLAIMS) == 0
  {
    assert RowWeights(map[], CLAIMS) == map[] && JobWeights(map[], CLAIMS) == map[];
  }

  // ---- Termination ----

  const STEPS := Weights(7, 3, 6, 2, 5, 1, 4)

  /** The worker steps of a run that do something. */
  ghost function WorkerSteps(y: Sys, es: seq<Event>): nat
    decreases es
  {
    if es == [] then 0 else
    Cost(y, es[0], 1, 1) + WorkerSteps(Next(y, es[0]), es[1..])
  }

  /** Requests that are accepted, weighted by the steps they can cause. */
  ghost function Admitted(y: Sys, es: seq<Event>): nat
    decreases es
  {
    if es == [] then 0 else
    Gain(y, es[0], STEPS) + Admitted(Next(y, es[0]), es[1..])
  }

  /** However events interleave, the worker steps taken plus the potential left never
      exceed what was there and what requests brought in: with finitely many requests
      the workers run out of steps. */
  lemma {:induction false} WorkIsFinite(y: Sys, es: seq<Event>)
    requires Inv(y)
    ensures WorkerSteps(y, es) + Potential(Run(y, es), STEPS) <= Potential(y, STEPS) + Admitted(y, es)
    decreases es
  {
    if es != [] {
      NextInv(y, es[0]);
      NextPotential(y, es[0], STEPS, 1, 1);
      WorkIsFinite(Next(y, es[0]), es[1..]);
    }
  }

  /** While anything is queued or in progress some worker step is possible and it lowers
      the potential, so the queue cannot stall. */
  lemma NeverStalls(y: Sys, now: int)
    requires Inv(y) && y.up
    requires y.jobs != map[] || exists i :: i in y.rows && Active(y.rows[i])
    ensures exists e: Event :: (Claims(y, e) || Moves(y, e)) && !e.Request? && Potential(Next(y, e), STEPS) < Potential(y, STEPS)
  {
    var e: Event;
    if s :| s in y.jobs {
      e := match y.jobs[s].phase
           case Working(_) => Decide(s, false, false)
           case Decided(_, _, _) => Event.Finish(s, now)
           case Rollbacking => QueueRollback(s, now);
      assert Moves(y, e);
    } else {
      var i :| i in y.rows && Active(y.rows[i]);
      assert y.rows[i].status == Queued;
      e := Claim(now);
      assert Claims(y, e);
    }
    NextPotential(y, e, STEPS, 1, 1);
  }
}
