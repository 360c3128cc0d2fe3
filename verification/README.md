# MiniDock control plane: a verified model

MiniDock builds applications, runs each release in a Docker container and routes it
through Caddy. This project models the parts of its control plane in which a mistake is
hard to see, and proves what they guarantee over whole runs: the blue-green switch and the
reconciliation after a crash, the deployment queue with its workers, the release history,
the two persisted limiters, the backup format, the schema migrations, the node registry
and the secret audit log.

`dafny verify dfyconfig.toml` checks everything.

## Modules

| module | subject |
|---|---|
| `Options` | the Some/None datatype |
| `Containers` | Docker's flat namespace and the routes; the four names and one route of an application as a lens on them |
| `BlueGreen` | `DockerAdapter.Start` as a state machine with one step per external call, so that a trace holds every state a crash can leave |
| `Exits` | the report and the final slot of a Start in terms of its slot and the outcomes of its calls alone |
| `Reconcile` | `Executor.Reconcile` for one application and for a list; crashes followed by reconciliation |
| `PassOutcomes` | the same for a reconciliation pass: verdict, route and containers |
| `Host` | the same code written imperatively over the shared containers and routes, proved equal to the machine and the pass |
| `Interleaving` | Starts of several applications, interleaved call by call by several workers |
| `Caddy` | `UpsertRoute` over Caddy's ordered route list: the origin of the three endings of an Apply |
| `Health` | the polling loop of `waitHealthy` |
| `Deployments` | the store calls on the `deployments` table |
| `Jobs` | operators, workers, heartbeats, retention, crashes and recovery interleaved in any order |
| `Drain` | a potential that every worker step uses up |
| `Calls` | every event of `Jobs` carried out by the store calls it stands for |
| `Worker` | `runNextDeployment` as methods, with the events of everybody else in between, proved to be a run of `Jobs` |
| `Manifest` | release manifest, deployment and rollback configuration |
| `History` | rollback targets, rollbacks and retention over the release list |
| `Limiters` | webhook windows and unlock lockouts |
| `Backup` | the `.mdbk` encoder and decoder over an ideal AEAD |
| `Nodes` | agent streams and the three statements of `UpsertNode` |
| `Secrets` | secrets, public configuration and the audit log |
| `Migration` | the migrations, interrupted anywhere and repeated |

The imperative parts of the source are classes with methods, each proved against a
specification function; the properties are lemmas about those functions.

## Assumptions

- A store call is one atomic step and its writes succeed; `UpsertNode` (three statements)
  and `migrate` (every statement) are split.
- The clock does not go backwards where the limiters are concerned.
- Docker gives every container its own address, keeps it across a rename, and refuses a
  name in use. An external call ends in one of three ways: `Done`, `Refused` (an error, no
  effect) or `Lost` (an error after the effect took place). A cancelled job context is a
  suffix of failed inspections and `Refused` calls.
- The outcome of every external call is a parameter (`Env`, `ReconEnv`, `Turn`, `Http`,
  `Poll`), so each theorem covers all outcomes.
- The migrations are proved for a program at any schema version from 3 to 10; the source is
  at 10. A database with a recorded version is assumed to hold what that version stands for.
- The AEAD is ideal: fixed overhead, opening undoes sealing, nothing else opens (AES-GCM,
  sections 7.1 and 7.2 of NIST SP 800-38D).

## Where the code and its own words differ

The model follows the code.

- The comments at `internal/deploy/executor.go:956-959` and `internal/app/cicd.go:223-225` treat a
  candidate as disposable. In the code `-candidate` is the live colour after the first
  switch, and `Reconcile` routes to any candidate it sees, even to one that never passed
  a health check (`Reconcile.FirstDeployCrash`). `Reconcile.PassServedExactly` says
  exactly when the route is served after a pass.
- A route error reported after Caddy took the change removes the container the route now
  dials; so does an inspection of the live candidate that fails once
  (`BlueGreen.Hazard`). `BlueGreen.RouteAlwaysServedExactly` shows that, with a failed
  restoration of the old route, these are the only ways in which a Start that began live
  can lose it. A Start that finds no candidate has less to fall back on
  (`BlueGreen.ServedWithoutCandidateExactly`).
- A `-next` container that serves beside a candidate that was not retired is removed by
  the next `Start` unless that stops earlier (`Reconcile.EndsBesideExactly`,
  `Reconcile.StartBesideExactly`). After a crash in the window before the rename the
  reconciliation keeps it only if Caddy kept its routes and no primary and no previous container exists
  (`Reconcile.CrashInWindowExactly`).
- `Reconcile` run twice is not always the same as run once: after restoring `-previous` it
  leaves an abandoned `-next`, which the second run removes
  (`Reconcile.PassTwiceExactly`).
- The webhook limiter admits up to 2 * limit - 1 requests in a span of one window, and
  that bound is reached unless the window is a single tick (`Limiters.BoundIsTight`,
  `Limiters.AllowedPerTick`).
- `Open` does not compare the recorded nonce length with the cipher's, and AES-GCM panics
  on a wrong one (`Backup.PanicsExactly`).
- A retention run that deletes some time after selecting can hit a deployment queued
  meanwhile under a reused id (`Jobs.OldSelectionCanHit`, `Jobs.OldSelectionIsSafe`).
- Retention that keeps one image deletes a rollback target that finished before the cutoff
  (`History.RetainingOneExactly`).
- The comment on `rollbackReleaseMetadata` says that a rollback runs with the current
  configuration; the public part is recreated from the release's manifest
  (`Manifest.RollbackRuntimeExactly`).
- A current secret whose name is also a public name (possible only if the two tables were
  not kept disjoint, see `Secrets.AuditIsFaithful`) is lost by a rollback.

## Model

| member | source | states |
|---|---|---|
| Containers.NamesCollideExactly | internal/deploy/executor.go:967-970 | the container names of two applications are disjoint exactly when neither application name is the other, or the other plus a colour suffix |
| Containers.NamesExactly | internal/deploy/executor.go:967-970 | the four names, spelled out |
| Containers.PutContainers | internal/deploy/executor.go:967-970 | writing one application's slot changes exactly its four container names |
| Containers.ViewPut | internal/deploy/executor.go:967-970 | reading back a written slot gives that slot |
| Containers.PutView | internal/deploy/executor.go:967-970 | writing back what was read changes nothing |
| Containers.PutPut | internal/deploy/executor.go:967-970 | the second of two writes wins |
| Containers.ViewOther | internal/deploy/executor.go:967-970 | a write to one application is invisible to every application whose names do not collide with it |
| BlueGreen.RouteAlwaysServedExactly | internal/deploy/executor.go:1081-1166 | started live, the route dials an existing container that passed its health check in every intermediate state, if and only if none of three named hazards occurs |
| BlueGreen.StartEndsLiveExactly | internal/deploy/executor.go:1081-1166 | exactly when a Start that began live ends live, the mistaken inspection of the candidate included; success implies it with the new container as the candidate; without the mistake every exit other than the two late ones leaves the old candidate untouched |
| BlueGreen.ServedWithoutCandidateExactly | internal/deploy/executor.go:1091-1166 | from a slot without a candidate a served route stays served in every state, if and only if neither a switch reported as failed nor a failed public check leaves the route on a removed container or an unchecked primary |
| BlueGreen.CrashShapes | internal/deploy/executor.go:1096-1165 | beside a checked candidate, wherever the route points and unless the candidate is taken for absent: every state has a checked candidate or, in the window before the rename, a checked routed next; primary and previous are untouched; the Start ends without a candidate exactly when it ends in that window, and a reported success is live with nothing staged |
| BlueGreen.InvStep | internal/deploy/executor.go:1081-1166 | what is known of containers, route and outcomes in each phase is kept by every step |
| BlueGreen.MistakeUnserved | internal/deploy/executor.go:1093-1096 | when the inspection of the live candidate fails, the cleanup of the staging name leaves the route on nothing |
| BlueGreen.AddressStep | internal/deploy/executor.go:1047-1049 | addresses stay distinct through removal, run and rename |
| Exits.StartEnds | internal/deploy/executor.go:1081-1166 | from any slot and for any outcomes of its calls: which of the nine reports a Start makes, and the route and every container it leaves |
| Exits.EndsOneWay | internal/deploy/executor.go:1081-1166 | slot and outcomes admit one report and one final slot only, so each condition is an if-and-only-if |
| Exits.ReleasedExactly | internal/deploy/executor.go:1081-1166 | a Start succeeds exactly if every call it needs succeeds, without a candidate and beside one |
| Host.Executor.RunContainer | internal/deploy/executor.go:1172-1197 | docker run adds one container under an unused name, running or not when its answer is lost, and touches nothing else |
| Host.Executor.ContainerTarget | internal/deploy/executor.go:1043-1060 | an address is returned exactly for a running container, an answering inspection and a valid port |
| Host.Executor.RemoveIfPresent | internal/deploy/executor.go:1062-1071 | removes the container if it is seen; fails only when the removal does |
| Host.Executor.ApplyRoute | internal/deploy/executor.go:1607-1612 | sets this application's route only, and reports success only when it did |
| Host.Executor.RenameContainer | internal/deploy/executor.go:1160-1164 | moves one container to a free name, keeping its address |
| Host.Executor.StageRelease | internal/deploy/executor.go:1084-1117 | the code up to the health check follows the machine step by step |
| Host.Executor.SwitchRoute | internal/deploy/executor.go:1128-1147 | the code from the address to the public check follows the machine, including the restoration of the old route |
| Host.Executor.RetireOldColour | internal/deploy/executor.go:1155-1165 | the code that retires and promotes follows the machine |
| Host.Executor.Start | internal/deploy/executor.go:1081-1166 | the whole switch on the shared namespace reports and leaves what `Exits` tells, touches nothing else, and follows the machine with the same trace |
| Host.Executor.RerouteTo | internal/deploy/executor.go:974-987 | the candidate and primary branches compute Reroute and touch no other application |
| Host.Executor.RestorePrevious | internal/deploy/executor.go:1007-1026 | the restoring branch computes Restore and touches no other application |
| Host.Executor.ReconcileOne | internal/deploy/executor.go:962-1035 | one turn of the loop is ReconcileSlot written back |
| Host.Executor.ReconcileList | internal/deploy/executor.go:960-1037 | the loop over all applications equals ReconcileAll: world, restored ids and early stop |
| Interleaving.TurnKeepsInStep | internal/app/cicd.go:237-243 | one external call of one worker is its own next step, and nobody else's view changes |
| Interleaving.InterleavingOnTrace | internal/app/cicd.go:237-243 | however the calls of Starts of non-colliding applications interleave, each application is always in a state of its own sequential Start, and ends where that ends |
| Interleaving.AllStayServed | internal/app/cicd.go:237-243 | at every moment of any interleaving every application that began live and meets no hazard is served |
| Interleaving.PutsCommute | internal/deploy/executor.go:967-970 | writes of applications that do not collide commute |
| Interleaving.InterleavingIsSequential | internal/app/cicd.go:237-243 | the whole world after any schedule is determined by how many turns each worker had, and nothing else on the host is touched |
| Caddy.Server.UpsertRoute | internal/deploy/executor.go:1762-1824 | a known route is replaced in place, an unknown one appended after an answered 404, exactly if that exchange took effect; success is reported exactly if it was answered and read back |
| Caddy.Server.VerifyRouteTarget | internal/deploy/executor.go:1826-1869 | accepts exactly when the read succeeds and the application's route dials the target |
| Caddy.AsCallExactly | internal/deploy/executor.go:1790-1823 | when a call is done, and when it took effect, in terms of PATCH, POST after a 404, and read-back |
| Caddy.UpsertIsUpdate | internal/deploy/executor.go:1763-1786 | on the map of routes by application an upsert is one map update |
| Caddy.OwnRouteAnswersExactly | internal/deploy/executor.go:1783-1786 | after an upsert the application's route answers for its host exactly when no earlier route matches the host |
| Caddy.EveryDomainAnswered | internal/deploy/executor.go:1762-1869 | over any upserts and endings ids stay unique and, with distinct domains, each domain is answered by exactly its application's route |
| Health.WaitHealthy | internal/deploy/executor.go:1428-1450 | a container is accepted exactly if some poll finds it healthy and all earlier polls answered undecided and in time |
| Reconcile.ReconcileSettles | internal/deploy/executor.go:974-1035 | a successful pass routes candidate, else primary, else the restored previous, and states everything it removes |
| Reconcile.ReconcileNeverStrands | internal/deploy/executor.go:960-1037 | whatever fails, a candidate or primary is never removed and a changed route dials an existing container |
| PassOutcomes.SurvivorExactly | internal/deploy/executor.go:974-1007 | the pass settles on the first of candidate, primary and previous that is there and seen |
| PassOutcomes.NothingToDoExactly | internal/deploy/executor.go:963-966 | nothing is done exactly without Docker or without a container |
| PassOutcomes.CandidatePass | internal/deploy/executor.go:974-987 | verdict, route and every container of a pass that settles on the candidate, for all outcomes; it succeeds exactly if the candidate is reachable, routed, and a seen staging container removed |
| PassOutcomes.PrimaryPass | internal/deploy/executor.go:991-1034 | the same for the primary, with the stale previous |
| PassOutcomes.PreviousPass | internal/deploy/executor.go:1007-1026 | the same for the restored previous: started, healthy, renamed to a free name, routed |
| PassOutcomes.PassOkExactly | internal/deploy/executor.go:960-1037 | the pass over non-colliding applications succeeds exactly if no application's own pass fails |
| PassOutcomes.PassStopsAtFirst | internal/deploy/executor.go:960-1037 | at the first failure it stops: applications up to it are where their own passes leave them, later ones untouched |
| Reconcile.ReconcileTwiceExactly | internal/deploy/executor.go:967-1034 | for one application a second pass changes nothing, except exactly after restoring previous beside an abandoned next |
| Reconcile.PassTwiceExactly | internal/deploy/executor.go:960-1037 | the same for every application of a list of non-colliding ones reconciled twice |
| Reconcile.PassSettlesWorldExactly | internal/deploy/executor.go:960-1037 | the second pass over the list leaves every container and route on the host as it was, exactly if no application was restored beside a next |
| Reconcile.CrashThenReconcile | internal/deploy/executor.go:971-987 | a crash anywhere in a Start beside a checked candidate while a candidate exists, then a successful pass that sees it, gives a live application with nothing staged, even if Caddy lost its routes |
| Reconcile.CrashInWindowExactly | internal/deploy/executor.go:1155-1164 | after a crash between removal and rename the routed next survives the pass exactly when Caddy kept its routes and no primary and no previous container exists |
| Reconcile.PassServedExactly | internal/deploy/executor.go:974-1035 | from any slot a successful pass leaves the route on a checked container exactly if the container it settled on had been checked, always for a restored previous, and as before if it found none |
| Reconcile.LiveForever | internal/deploy/executor.go:960-1166 | over any number of releases with any outcome, crashes and passes, failed or not, a checked candidate remains, and the application is live after every reported success and every successful pass; the only rounds left out are those that mistake the candidate for absent or stop between removal and rename |
| Reconcile.EndsBesideExactly | internal/deploy/executor.go:1128-1164 | exactly which outcomes leave the candidate in place with the route on next |
| Reconcile.StartBesideExactly | internal/deploy/executor.go:1093-1096 | from any such slot a Start that sees the candidate keeps the route served exactly if it stops before the cleanup or the cleanup is refused |
| Reconcile.StartAfterFailedPromotion | internal/deploy/executor.go:1093-1096 | after a release that ended beside next, the following Start keeps the route served exactly if it stops before the cleanup or the cleanup is refused |
| Reconcile.FirstDeployCrash | internal/deploy/executor.go:974-981 | the failing case: a crash during the first deployment after which the pass routes to a candidate no health check accepted |
| Reconcile.PassTouchesOnlyListed | internal/deploy/executor.go:962-970 | an application that collides with none of the list keeps its containers and route |
| Reconcile.PassIsPerApplication | internal/deploy/executor.go:962-1036 | after a successful pass over non-colliding applications each is in the state its own reconciliation gives |
| Reconcile.RestoredExactly | internal/deploy/executor.go:1025-1025 | the reported ids are exactly the applications whose previous container was restored |
| Deployments.Store.QueueDeployment | internal/store/store.go:565-581 | rejects unknown actions and a second active row of an application, else adds one queued row under the next row id |
| Deployments.Store.NextQueuedDeployment | internal/store/store.go:583-623 | claims the oldest queued row, and reports none only when none is queued |
| Deployments.Store.HeartbeatDeployment | internal/store/store.go:628-646 | renews exactly a running row without a cancel request, and tells cancellation from absence |
| Deployments.Store.CancelDeployment | internal/store/store.go:651-679 | succeeds exactly for a queued row or a running one not yet cancelled, and says what changes |
| Deployments.Store.CancellationRequested | internal/store/store.go:681-690 | reads the cancel request of an existing row |
| Deployments.Store.FinishDeployment | internal/store/store.go:788-791 | a cancel request wins over the status given; a missing row is no error |
| Deployments.Store.RecoverInterruptedDeployments | internal/store/store.go:695-706 | fails exactly the running rows and counts them |
| Deployments.Store.DeleteDeployments | internal/store/store.go:897-909 | deletes exactly the listed rows of the one application |
| Deployments.NextId | internal/store/store.go:565-581 | the next row id is one more than the largest existing one, so ids of deleted newest rows come back |
| Deployments.OldestQueued | internal/store/store.go:583-600 | the queued row with the smallest id, if any |
| Jobs.NextInv | internal/store/store.go:565-706 | every event of any worker, operator, crash or recovery keeps the protocol invariant |
| Jobs.QueueGuarantees | internal/store/store.go:1205-1206 | in every run: one active row per application, every row has the shape of its status, nothing active has a finish time, no row is claimed twice |
| Jobs.RunEvolves | internal/store/store.go:565-706 | over any run a row never moves back, a finished row is never rewritten, and a running row is frozen from its cancel request on |
| Jobs.RequestExactly | internal/store/store.go:565-581 | which requests add which row, and how they are counted |
| Jobs.ClaimExactly | internal/store/store.go:583-623 | a claim takes the oldest queued row and its new columns are given |
| Jobs.BeatExactly | internal/app/cicd.go:541-552 | which heartbeats renew a lease and which cost the worker its lease |
| Jobs.CancelExactly | internal/store/store.go:651-679 | what a cancellation does to a queued, a running and any other row |
| Jobs.DecideExactly | internal/app/cicd.go:408-431 | the worker's decision in terms of the row, the job and the lease |
| Jobs.FinishExactly | internal/store/store.go:788-791 | the columns of the finished row, and which worker goes on to a rollback |
| Jobs.QueueRollbackExactly | internal/app/cicd.go:444-450 | the automatic rollback's row, if the application is idle, has action auto_rollback; nothing else changes |
| Jobs.CrashAndRecoverExactly | internal/store/store.go:695-706 | a crash forgets the workers, a restart records failed for what was running |
| Jobs.PruneExactly | internal/store/store.go:897-909 | the rows a deletion takes |
| Jobs.AutoRollbacksFollowFailures | internal/app/cicd.go:442-450 | in every run an automatic rollback exists only after a worker recorded the failure of a deployment of that application |
| Jobs.SelectionUntouchedOrReused | internal/app/operations.go:475-501 | at any later time the id of a selected finished row holds that very row exactly if its row is not newer than the selection |
| Jobs.OldSelectionIsSafe | internal/app/operations.go:475-501 | while one row at least as new as the whole selection stays, a delayed deletion removes only the selected rows and nothing active |
| Jobs.OldSelectionCanHit | internal/app/operations.go:475-501 | the failing case: two runs select the same newest row, and the second finds a queued deployment under its id |
| Calls.Perform | internal/store/store.go:565-909 | each protocol event has exactly the effect of the store calls it stands for, on the table and on the workers' copies |
| Calls.PerformAll | internal/store/store.go:565-909 | the same for whole runs, restarts included |
| Jobs.CancelIsFinal | internal/store/store.go:651-679 | after a successful cancel the row never becomes successful in any continuation and, without a crash, ends only as cancelled |
| Jobs.RunDoomed | internal/app/cicd.go:408-442 | while the process lives a cancelled row can end only as cancelled, whatever races with the worker's last reading |
| Jobs.LostLeaseNeverSucceeds | internal/app/cicd.go:408-442 | from a lost heartbeat on, no continuation records success for that row |
| Jobs.LostLeaseSpoils | internal/app/cicd.go:535-555 | a worker with a failed heartbeat is in the situation the previous member starts from |
| Drain.NextPotential | internal/app/cicd.go:294-452 | every claim and worker step lowers the potential by its cost and only accepted requests raise it |
| Drain.ClaimsAreBounded | internal/app/cicd.go:442-450 | the claims of any run are at most twice the deployments it accepted plus the rollbacks it accepted |
| Drain.WorkIsFinite | internal/app/cicd.go:280-309 | the effective worker steps of any run are bounded by the initial potential and what requests add |
| Drain.NeverStalls | internal/app/cicd.go:294-309 | while work is queued or in progress some worker step is possible and lowers the potential |
| Worker.RunNextDeployment | internal/app/cicd.go:294-452 | a turn claims the oldest row and is a run of the protocol in which every event of operators, other workers and retention during the job, after its last reading and before the rollback takes place; unless the row is gone it ends cancelled exactly if a cancel was accepted before the finish, else as the job and the heartbeats went |
| Worker.RunJob | internal/app/cicd.go:308-452 | the same from the claim on, with the worker's own verdict and the recorded status told apart and the rollback queued |
| Worker.RunHappenings | internal/app/cicd.go:535-555 | heartbeats among others' events: the lease is lost exactly if the store failed one, unless a cancel was accepted |
| Worker.Judge | internal/app/cicd.go:408-431 | last reading and verdict: an accepted cancel wins, then any error, and only a failed deployment asks for a rollback |
| Worker.OtherKeepsHold | internal/store/store.go:565-706 | no event of anybody else takes a running row from its worker, and it is marked exactly if an operator asks for its cancellation |
| Worker.Record | internal/app/cicd.go:442-442 | a cancel that came after the last reading still wins in the row |
| Worker.QueueAutoRollback | internal/app/cicd.go:444-450 | a row with action auto_rollback is queued unless the application has active work by then, no other row changes, and the worker is done |
| Worker.AutoRollbackRestoresLatest | internal/app/cicd.go:388-407 | the turn of a row queued by an automatic rollback, if it succeeds, puts the latest successful release on top again |
| Manifest.ManifestRecords | internal/app/cicd.go:459-477 | for any starting manifest the result records exactly the given public configuration and keeps every other readable field |
| Manifest.ManifestExactly | internal/app/cicd.go:459-477 | every field of the resulting manifest, observed container included, and the cases of an unreadable manifest and of no configuration |
| Manifest.RecordedExactly | internal/app/cicd.go:482-491 | what a rollback can read back, and which error each other manifest gives |
| Manifest.DecodeEncode | internal/deploy/executor.go:329-335 | decoding an encoded configuration returns it |
| Manifest.RollbackRuntimeExactly | internal/app/cicd.go:482-503 | name by name: recorded values return, other public names go, an unrecorded secret stays exactly when no public name equals it |
| Manifest.RollbackKeepsSecrets | internal/app/cicd.go:482-503 | with disjoint names the environment is the current secrets under the recorded configuration |
| Manifest.CopyInto | internal/app/server.go:1446-1459 | the copying loop adds exactly the source entries, in any order |
| Manifest.DeleteNames | internal/app/cicd.go:492-494 | the deleting loop removes exactly the given names, in any order |
| Manifest.DeploymentConfiguration | internal/app/server.go:1434-1461 | digest and recorded configuration depend on public values alone, although the same map is later overlaid with secrets; the copies do not alias |
| Manifest.RollbackConfiguration | internal/app/cicd.go:482-503 | edits the runtime map in place to the rolled-back one and replaces the public map, or fails leaving both unchanged |
| History.LatestSuccessful | internal/store/store.go:727-738 | the newest successful release with an image |
| History.PreviousSuccessful | internal/store/store.go:711-725 | the second newest successful release with an image |
| History.RollbackRestores | internal/app/cicd.go:368-407 | a rollback succeeds exactly when target configuration, image and digest check out, and then restores image, evidence and configuration |
| History.VerifyArtifactExactly | internal/deploy/executor.go:938-954 | when an artifact is accepted and what is reported otherwise |
| History.TurnAddsRow | internal/app/cicd.go:336-407 | a turn adds one finished row on top; a successful deployment becomes the latest release and the former latest the rollback target |
| History.ActionDecides | internal/app/cicd.go:336-407 | the action of the row decides whether what was built, the previous or the latest release goes on top |
| History.TurnOnTargets | internal/app/cicd.go:368-407 | a successful rollback swaps the two newest releases, anything unsuccessful leaves them |
| History.RollbacksAlternate | internal/store/store.go:711-738 | any number of rollbacks leaves the two releases in place or swapped by the parity of the successful ones |
| History.AutoRollbackKeepsLatest | internal/app/cicd.go:368-407 | a successful automatic rollback keeps the latest release and makes it the next rollback target |
| History.RetentionCandidates | internal/store/store.go:873-895 | the counting loop computes the candidate list |
| History.CandidatesExactly | internal/store/store.go:873-895 | selected exactly: finished before the cutoff, not active, and not one of the newest k successes |
| History.OrderIsKept | internal/store/store.go:873-909 | selecting and deleting keep the order of the rows |
| History.DeletionAddsNoCandidate | internal/store/store.go:873-909 | deleting rows never makes another row a candidate |
| History.RetentionIsIdempotent | internal/app/operations.go:469-504 | after deleting all candidates a second run finds none |
| History.NewestAreKept | internal/store/store.go:886-892 | the newest k usable releases are never candidates |
| History.UsableIsCandidateExactly | internal/store/store.go:880-893 | the n-th newest usable release is a candidate exactly if it is beyond the newest k and finished before the cutoff |
| History.RetentionKeepsTargets | internal/app/operations.go:469-504 | keeping two or more, deleting any of the candidates leaves both rollback targets unchanged |
| History.RetainingOneExactly | internal/app/operations.go:469-504 | keeping one, the latest release stays, and the rollback target stays exactly if there was none or it did not finish before the cutoff |
| History.RetainingOneLosesTarget | internal/app/operations.go:469-504 | the failing case: a history in which keeping one deletes the rollback target |
| History.HistoriesAreImaged | internal/app/cicd.go:368-407 | in every history the worker writes, a success has an image |
| History.RunRetention | internal/app/operations.go:469-504 | deletes the rows of exactly those candidates whose image and log are gone |
| History.CleanedIdsExactly | internal/app/operations.go:480-500 | the collected ids are those of candidates fully cleaned up |
| Limiters.WebhookLimits.AllowWebhookRequest | internal/store/store.go:1522-1542 | validates its arguments, counts or restarts the scope's window, and compares with the limit |
| Limiters.AllowedPerSpan | internal/store/store.go:1522-1542 | at most 2 * limit - 1 requests are allowed in any half-open span as long as the window |
| Limiters.BoundIsTight | internal/store/store.go:1522-1542 | that bound is reached for every limit and every window longer than one tick |
| Limiters.AllowedPerTick | internal/store/store.go:1522-1542 | for a window of one tick the bound is the limit itself |
| Limiters.AllowedInWindowExactly | internal/store/store.go:1522-1542 | of the requests counted in one window exactly as many are allowed as the limit leaves |
| Limiters.AllowedExactly | internal/store/store.go:1522-1542 | a request is allowed exactly when a full window has passed or fewer than limit were counted in this one |
| Limiters.UnlockAttempts.UnlockLockoutUntil | internal/store/store.go:1545-1563 | reports a lockout exactly while it is active |
| Limiters.UnlockAttempts.RegisterFailedUnlock | internal/store/store.go:1565-1598 | counts nothing under a lockout, else counts and locks on the fifth |
| Limiters.UnlockAttempts.Unlock | internal/app/server.go:1782-1833 | refused exactly under a lockout, where even the right password neither unlocks nor clears; a counted failure reports a lockout exactly on the fifth |
| Limiters.CounterStaysSmall | internal/store/store.go:1565-1598 | the stored counter stays in 0..4 |
| Limiters.FiveFailuresPerSpan | internal/store/store.go:1565-1598 | between clears at most five failures are counted in any half-open five minutes |
| Limiters.LockoutOnFifth | internal/store/store.go:1565-1598 | the fifth counted failure and no earlier one starts a lockout of five minutes |
| Backup.Seal | internal/backup/format.go:21-43 | builds header, nonce and ciphertext, and rejects an empty database |
| Backup.PutUint64 | internal/backup/format.go:36-36 | writes the eight big-endian bytes in place and nothing else |
| Backup.Open | internal/backup/format.go:46-62 | never slices out of bounds and accepts only the exact length |
| Backup.OpenUndoesSeal | internal/backup/format.go:21-62 | opening a sealed backup returns the database |
| Backup.OpenAcceptsOnlySealed | internal/backup/format.go:46-62 | whatever opens is byte for byte what sealing its content gives |
| Backup.LengthsExactly | internal/backup/format.go:53-58 | the 64-bit length check does not wrap and admits exactly header plus nonce plus ciphertext |
| Backup.ErrorsExactly | internal/backup/format.go:46-62 | which input is refused for what |
| Backup.HeaderExactly | internal/backup/format.go:12-37 | the fourteen header bytes, with the length most significant byte first |
| Backup.PanicsExactly | internal/backup/format.go:53-61 | the cipher panics exactly on a well-formed layout with another nonce length |
| Backup.BigEndianRoundTrip | internal/backup/format.go:36-54 | a length that fits is read back |
| Backup.BigEndianOf | internal/backup/format.go:36-54 | eight bytes that were read are the ones written for that number |
| Nodes.Connect | internal/agent/control.go:25-66 | accepts a hello and matching heartbeats, and upserts only under the hello's identity and the stream's certificate |
| Nodes.StatementIsBound | internal/store/store.go:1406-1440 | one statement never changes an enrolled node's fingerprint or creation time, and changes it at all only under that fingerprint |
| Nodes.IdentityIsBound | internal/store/store.go:1406-1440 | the same over any interleaving of calls, and without a call holding the fingerprint the node does not change |
| Nodes.SuccessMeansWritten | internal/store/store.go:1406-1440 | a call succeeds only by writing its own data, and no other node is touched |
| Nodes.UpsertAlone | internal/store/store.go:1406-1440 | an undisturbed call enrolls a new node, updates one with its certificate, and fails for any other, with every field given |
| Nodes.FirstCertificateWins | internal/store/store.go:1406-1440 | of two racing first connections with different certificates at most one succeeds |
| Secrets.Store.PutApplicationSecret | internal/store/store.go:346-372 | stores the secret and logs created or rotated, or refuses a bad scope or a public name |
| Secrets.Store.DeleteApplicationSecret | internal/store/store.go:404-418 | removes an existing secret and logs it |
| Secrets.Store.RecordSecretUse | internal/store/store.go:420-427 | logs one use per name, in order |
| Secrets.Store.PutApplicationConfiguration | internal/store/store.go:446-460 | stores a public value unless the name is a secret of that scope |
| Secrets.NextInv | internal/store/store.go:346-460 | every store call keeps the log faithful |
| Secrets.AuditIsFaithful | internal/store/store.go:346-460 | the log replays to exactly the live secrets, per name in rounds of creation, rotations and deletion, and secret and public names stay disjoint |
| Migration.Database.Migrate | internal/store/store.go:911-1052 | the procedure with its two paths executes the plan of its starting database and stops at the first error; a newer database is left alone |
| Migration.CrashesDoNotMatter | internal/store/store.go:911-1052 | after any crashed attempts the next one succeeds exactly with at most one active row per application, and leaves what an uninterrupted migration would have left |
| Migration.FullAttempt | internal/store/store.go:911-1208 | a completed attempt gives the whole latest schema and version; each application keeps its confirmation, on by default, and keeps push deployment exactly where that is off |
| Migration.SchemaExactly | internal/store/store.go:1054-1349 | the tables, columns, indexes and default row of version 10, all of them and no others |
| Migration.FlagWritesExactly | internal/store/store.go:494-497 | the calls that write the flags refuse the forbidden pair and otherwise write exactly what was asked |
| Migration.AttemptKeeps | internal/store/store.go:911-1052 | a crash after any statement leaves a well-formed database with the same outcome ahead |
| Migration.PlanSound | internal/store/store.go:911-1052 | every statement of the plan finds what it refers to, and a version is recorded only once everything it stands for is done |
| Migration.UnversionedIsWellFormed | internal/store/store.go:922-974 | the theorems apply to every database without a version, whatever part of the schema it already has |
| Migration.MigrationSound | internal/store/store.go:1054-1349 | each migration needs only what the earlier ones provide |
| Migration.UpMeansMigrated | internal/store/store.go:494-497 | in every history of crashes, restarts and changes, whenever a process is up no application has both push deployment and confirmation on and none has two active rows |

## Left out

- HTTP handlers, views, sessions, CSRF, webhook signature checks, notifications, alerts, probes and SLO figures.
- Real Docker, Git, Caddy, Cloudflare, S3 and gRPC behaviour beyond the outcomes named under Assumptions; cloning, building and the generated Dockerfile.
- The Apple adapter, `StartDeployment`, `switchFailure` with `restoreDockerRelease`, and the Cloudflared connector, which is a one-container version of the switch.
- The `retry` action of the worker: `QueueDeployment` rejects it, so no row carries it.
- Containers that stop or vanish by themselves, and crashes inside `Reconcile`.
- Changes of an application's domain between two upserts in `Caddy`; the JSON of a route.
- Pinned commits: row and metadata are written in two steps, and nothing is claimed about the commit that is built.
- Columns that only inform: log path, image of an unfinished row, stage, durations, failure text.
- Image tags: rollback rows share them, so removing one row's image can remove another's; the retention results are about rows.
- History.RunRetention: selecting, cleaning and deleting for one application is one step; what can happen in between is the subject of `Jobs.OldSelectionIsSafe`.
- Jobs.NextInv: a deletion that would hit an active row (`Jobs.OldSelectionCanHit`) is left out of the runs.
- History.RollbacksAlternate: is about the recorded history; the live container can differ from the latest row after a late cancel or a crash.
- Limiters.WebhookLimits.AllowWebhookRequest: the upsert and the reading of the counter are one step, as is each unlock call.
- Manifest.ManifestRecords: JSON text is the value it decodes to; case-insensitive key matching and invalid UTF-8 are not modelled, and digests are the pair of maps they are computed from.
- Backup.Open: AES-GCM, key derivation and hashing are an abstract ideal cipher.
- Migration.CrashesDoNotMatter: covers the schema, the version, the two flags and the active rows; column types and other data are not modelled.
- Migration.UpMeansMigrated: the queue appears as the number of active rows per application, which the unique index keeps at one.
- Nodes.Connect: stream errors other than a rejected upsert end the stream without further effect and are not modelled.
- Expiry of a lease: nothing in the source acts on it.
