/** The executor's imperative code over the shared container namespace, proved against
    the state machine of BlueGreen and the pass of Reconcile. */
module Host {
  import opened Options
  import opened Containers
  import opened BlueGreen
  import opened Exits
  import opened Reconcile

  /** Every name and route that is not the application's is as it was. */
  ghost predicate Elsewhere(w: World, v: World, app: Application) {
    && (forall n :: n !in NamesOf(app.name) ==> (n in v.containers <==> n in w.containers))
    && (forall n :: n !in NamesOf(app.name) && n in v.containers ==> v.containers[n] == w.containers[n])
    && w.routes - {app.id} == v.routes - {app.id}
  }

  lemma ElsewherePut(w: World, v: World, app: Application)
    requires Elsewhere(w, v, app)
    ensures v == Put(w, app, View(v, app))
  {
    var s := View(v, app);
    PutContainers(w, app, s);
    var p := Put(w, app, s);
    forall n
      ensures (n in p.containers <==> n in v.containers) && (n in p.containers ==> p.containers[n] == v.containers[n])
    {
      hide Put;
      if n in NamesOf(app.name) {
        var c :| n == ContainerName(app.name, c);
      }
    }
    assert p.containers == v.containers by { hide Put, View, Elsewhere; }
    PutRoutes(w, v, app);
  }

  lemma PutRoutes(w: World, v: World, app: Application)
    requires w.routes - {app.id} == v.routes - {app.id}
    ensures Put(w, app, View(v, app)).routes == v.routes
  {
    hide Write;
    var routes := Put(w, app, View(v, app)).routes;
    forall id | id != app.id
      ensures id in w.routes <==> id in v.routes
      ensures id in v.routes ==> w.routes[id] == v.routes[id]
    {
      assert id in w.routes <==> id in w.routes - {app.id};
      assert id in v.routes <==> id in v.routes - {app.id};
      assert id in v.routes ==> (w.routes - {app.id})[id] == (v.routes - {app.id})[id];
    }
    assert routes == v.routes;
  }

  lemma ElsewhereTransitive(u: World, w: World, v: World, app: Application)
    requires Elsewhere(u, w, app) && Elsewhere(w, v, app)
    ensures Elsewhere(u, v, app)
  {
  }

  lemma ViewAt(w: World, app: Application, c: Colour)
    ensures c in View(w, app).containers <==> ContainerName(app.name, c) in w.containers
    ensures c in View(w, app).containers ==> View(w, app).containers[c] == w.containers[ContainerName(app.name, c)]
  {
  }

  lemma ViewIs(w: World, app: Application, s: Slot)
    requires forall c :: c in s.containers <==> ContainerName(app.name, c) in w.containers
    requires forall c :: c in s.containers ==> s.containers[c] == w.containers[ContainerName(app.name, c)]
    requires s.route == View(w, app).route
    ensures View(w, app) == s
  {
    hide ContainerName;
    assert View(w, app).containers == s.containers;
  }

  lemma NameOf(app: string, c: Colour)
    ensures ContainerName(app, c) in NamesOf(app)
  {
  }

  /** Setting or removing one container sets or removes one colour of the view. */
  lemma ViewWith(w: World, v: World, app: Application, c: Colour, x: Container)
    requires v == w.(containers := w.containers[ContainerName(app.name, c) := x])
    ensures View(v, app) == View(w, app).(containers := View(w, app).containers[c := x])
    ensures Elsewhere(w, v, app)
  {
    hide ContainerName, NamesOf;
    forall d
      ensures ContainerName(app.name, d) == ContainerName(app.name, c) ==> d == c
    {
      ColoursDistinct(app.name, c, d);
    }
    NameOf(app.name, c);
    ViewIs(v, app, View(w, app).(containers := View(w, app).containers[c := x]));
  }

  lemma ViewWithout(w: World, v: World, app: Application, c: Colour)
    requires v == w.(containers := w.containers - {ContainerName(app.name, c)})
    ensures View(v, app) == View(w, app).(containers := View(w, app).containers - {c})
    ensures Elsewhere(w, v, app)
  {
    hide ContainerName, NamesOf;
    forall d
      ensures ContainerName(app.name, d) == ContainerName(app.name, c) ==> d == c
    {
      ColoursDistinct(app.name, c, d);
    }
    NameOf(app.name, c);
    ViewIs(v, app, View(w, app).(containers := View(w, app).containers - {c}));
  }

  lemma ElsewhereReflexive(w: World, app: Application)
    ensures Elsewhere(w, w, app)
  {
  }

  /** The machine `m`, reached from `m0` over `trace`, agrees with the world `v`. */
  ghost predicate Follows(w: World, v: World, app: Application, env: Env, m: Machine, trace: seq<Slot>) {
    var m0 := Begin(View(w, app));
    && View(v, app) == m.slot && Elsewhere(w, v, app)
    && trace + Trace(app.port, env, m) == Trace(app.port, env, m0)
    && Final(app.port, env, m) == Final(app.port, env, m0)
  }

  /** One more step, of which `v` is the world after. */
  lemma Tick(w: World, u: World, v: World, app: Application, env: Env, m: Machine, trace: seq<Slot>)
    returns (n: Machine, longer: seq<Slot>)
    requires Follows(w, u, app, env, m, trace) && !m.phase.Stopped?
    requires View(v, app) == Step(app.port, env, m).slot && Elsewhere(u, v, app)
    ensures n == Step(app.port, env, m) && longer == trace + [View(v, app)]
    ensures Follows(w, v, app, env, n, longer)
  {
    n := Step(app.port, env, m);
    longer := trace + [n.slot];
    assert Trace(app.port, env, m) == [n.slot] + Trace(app.port, env, n);
    assert longer + Trace(app.port, env, n) == trace + ([n.slot] + Trace(app.port, env, n));
    ElsewhereTransitive(w, u, v, app);
  }

  lemma FollowsFromStart(w: World, app: Application, env: Env)
    ensures Follows(w, w, app, env, Begin(View(w, app)), []) && Elsewhere(w, w, app)
  {
  }

  lemma FollowsView(w: World, v: World, app: Application, env: Env, m: Machine, trace: seq<Slot>)
    requires Follows(w, v, app, env, m, trace)
    ensures View(v, app) == m.slot
  {
  }

  /** A step that changes nothing. */
  lemma Idle(w: World, v: World, app: Application, env: Env, m: Machine, trace: seq<Slot>)
    returns (n: Machine, longer: seq<Slot>)
    requires Follows(w, v, app, env, m, trace) && !m.phase.Stopped?
    requires Step(app.port, env, m).slot == m.slot
    ensures n == Step(app.port, env, m) && longer == trace + [View(v, app)]
    ensures Follows(w, v, app, env, n, longer)
  {
    n, longer := Tick(w, v, v, app, env, m, trace);
  }

  lemma Stop(w: World, v: World, app: Application, env: Env, m: Machine, trace: seq<Slot>)
    requires Follows(w, v, app, env, m, trace) && m.phase.Stopped?
    ensures var f := Final(app.port, env, Begin(View(w, app)));
            f == m && v == Put(w, app, f.slot) && trace == Trace(app.port, env, Begin(View(w, app)))
    ensures View(v, app) == m.slot && Elsewhere(w, v, app)
  {
    assert trace + [] == trace;
    ElsewherePut(w, v, app);
  }

  class Executor {
    var containers: map<string, Container>
    var routes: map<int, Target>

    function Now(): World
      reads this
    {
      World(containers, routes)
    }

    // ---- Docker and Caddy calls ----

    method Exists(app: Application, c: Colour, inspected: bool) returns (found: bool)
      ensures found == Sees(View(Now(), app), c, inspected)
    {
      found := inspected && ContainerName(app.name, c) in containers;
    }

    method RemoveForce(app: Application, c: Colour, call: Call) returns (ok: bool)
      modifies this`containers
      ensures View(Now(), app) == Remove(old(View(Now(), app)), c, call)
      ensures Elsewhere(old(Now()), Now(), app)
      ensures ok == (call == Done)
    {
      ghost var w := Now();
      if Took(call) {
        containers := containers - {ContainerName(app.name, c)};
        ViewWithout(w, Now(), app, c);
      }
      ok := call == Done;
    }

    method RunContainer(app: Application, c: Colour, call: Call, ip: nat, lostRuns: bool) returns (ok: bool)
      modifies this`containers
      ensures View(Now(), app) == Run(old(View(Now(), app)), c, call, ip, lostRuns)
      ensures Elsewhere(old(Now()), Now(), app)
      ensures ok == Ran(old(View(Now(), app)), c, call)
    {
      ghost var w := Now();
      var name := ContainerName(app.name, c);
      if name in containers {
        return false;
      }
      if Took(call) {
        containers := containers[name := Container(ip, call == Done || lostRuns, false)];
        ViewWith(w, Now(), app, c, Container(ip, call == Done || lostRuns, false));
      }
      ok := call == Done;
    }

    method StartContainer(app: Application, c: Colour, call: Call, ip: nat) returns (ok: bool)
      requires ContainerName(app.name, c) in containers
      modifies this`containers
      ensures View(Now(), app) == Started(old(View(Now(), app)), c, call, ip)
      ensures Elsewhere(old(Now()), Now(), app)
      ensures ok == (call == Done)
    {
      ghost var w := Now();
      var name := ContainerName(app.name, c);
      if Took(call) && !containers[name].running {
        containers := containers[name := containers[name].(running := true, ip := ip)];
        ViewWith(w, Now(), app, c, containers[name]);
      }
      ok := call == Done;
    }

    method WaitHealthy(app: Application, c: Colour, healthy: bool) returns (ok: bool)
      modifies this`containers
      ensures ok == (healthy && c in old(View(Now(), app)).containers)
      ensures View(Now(), app) == if ok then MarkProven(old(View(Now(), app)), c) else old(View(Now(), app))
      ensures Elsewhere(old(Now()), Now(), app)
    {
      ghost var w := Now();
      var name := ContainerName(app.name, c);
      ok := healthy && name in containers;
      if ok {
        containers := containers[name := containers[name].(proven := true)];
        ViewWith(w, Now(), app, c, containers[name]);
      }
    }

    method ContainerTarget(app: Application, c: Colour, inspected: bool) returns (target: Option<Target>)
      ensures target.Some? == HasTarget(View(Now(), app), c, app.port, inspected)
      ensures target.Some? ==> target.value == Target(View(Now(), app).containers[c].ip, app.port)
    {
      var name := ContainerName(app.name, c);
      if inspected && name in containers && containers[name].running && ValidPort(app.port) {
        return Some(Target(containers[name].ip, app.port));
      }
      return None;
    }

    method ApplyRoute(app: Application, target: Target, call: Call) returns (ok: bool)
      modifies this`routes
      ensures View(Now(), app) == if Took(call) then old(View(Now(), app)).(route := Some(target)) else old(View(Now(), app))
      ensures Elsewhere(old(Now()), Now(), app)
      ensures ok == (call == Done)
    {
      if Took(call) {
        routes := routes[app.id := target];
      }
      ok := call == Done;
    }

    method RenameContainer(app: Application, src: Colour, dst: Colour, call: Call) returns (ok: bool)
      requires src != dst
      modifies this`containers
      ensures View(Now(), app) == Rename(old(View(Now(), app)), src, dst, call)
      ensures Elsewhere(old(Now()), Now(), app)
      ensures ok == (call == Done && CanRename(old(View(Now(), app)), src, dst))
    {
      hide View, Elsewhere, ContainerName;
      ghost var w := Now();
      var a, b := ContainerName(app.name, src), ContainerName(app.name, dst);
      ViewAt(w, app, src);
      ViewAt(w, app, dst);
      ElsewhereReflexive(w, app);
      ok := call == Done && a in containers && b !in containers;
      if a in containers && b !in containers && Took(call) {
        var moved := containers[a];
        containers := containers - {a};
        ghost var mid := Now();
        ViewWithout(w, mid, app, src);
        containers := containers[b := moved];
        ViewWith(mid, Now(), app, dst, moved);
        ElsewhereTransitive(w, mid, Now(), app);
      }
    }

    method RemoveIfPresent(app: Application, c: Colour, inspected: bool, call: Call) returns (ok: bool)
      modifies this`containers
      ensures View(Now(), app) == Reconcile.RemoveIfPresent(old(View(Now(), app)), c, inspected, call)
      ensures Elsewhere(old(Now()), Now(), app)
      ensures ok == !RemovalFails(old(View(Now(), app)), c, inspected, call)
    {
      var found := Exists(app, c, inspected);
      if !found {
        return true;
      }
      ok := RemoveForce(app, c, call);
    }

    // ---- DockerAdapter.Start ----

    /** Runs and checks the new release beside the active colour. */
    method StageRelease(app: Application, env: Env)
      returns (failed: Option<Exit>, active: Colour, staging: Colour, ghost m: Machine, ghost trace: seq<Slot>)
      modifies this
      ensures Follows(old(Now()), Now(), app, env, m, trace)
      ensures m.phase == match failed case Some(exit) => Stopped(exit) case None => Locate
      ensures m.active == active && m.staging == staging
    {
      hide View, Put, Elsewhere, Follows, Trace, Final;
      ghost var w0 := Now();
      FollowsFromStart(w0, app, env);
      ghost var w := w0;
      m, trace := Begin(View(w0, app)), [];
      active, staging := Primary, Candidate;
      m, trace := Idle(w0, w, app, env, m, trace);
      if !env.network {
        failed := Some(NetworkUnavailable);
        return;
      }

      // After the first switch the candidate is the live colour, so the new release is
      // staged under next.
      var found := Exists(app, Candidate, env.seesCandidate);
      if found {
        active, staging := Candidate, Next;
      }
      m, trace := Idle(w0, w, app, env, m, trace);
      var ok := RemoveForce(app, staging, env.clean);
      m, trace := Tick(w0, w, Now(), app, env, m, trace);
      w := Now();

      ok := RunContainer(app, staging, env.run, env.ip, env.lostRuns);
      m, trace := Tick(w0, w, Now(), app, env, m, trace);
      w := Now();
      if !ok {
        failed := Some(CandidateStartFailed);
        return;
      }
      ok := WaitHealthy(app, staging, env.healthy);
      m, trace := Tick(w0, w, Now(), app, env, m, trace);
      w := Now();
      if !ok {
        ok := RemoveForce(app, staging, env.unhealthyRm);
        m, trace := Tick(w0, w, Now(), app, env, m, trace);
        failed := Some(HealthCheckFailed);
        return;
      }
      failed := None;
    }

    /** Moves the route to the staged container, and back if the public check fails. */
    method SwitchRoute(app: Application, env: Env, active: Colour, staging: Colour,
                       ghost w0: World, ghost before: Machine, ghost prefix: seq<Slot>)
      returns (failed: Option<Exit>, ghost m: Machine, ghost trace: seq<Slot>)
      requires Follows(w0, Now(), app, env, before, prefix)
      requires before.phase.Locate? && before.active == active && before.staging == staging
      modifies this
      ensures Follows(w0, Now(), app, env, m, trace)
      ensures m.phase == match failed case Some(exit) => Stopped(exit) case None => Retire
      ensures m.active == active && m.staging == staging
    {
      hide View, Put, Elsewhere, Follows, Trace, Final;
      FollowsView(w0, Now(), app, env, before, prefix);
      ghost var w := Now();
      m, trace := before, prefix;
      var target := ContainerTarget(app, staging, env.address);
      m, trace := Idle(w0, w, app, env, m, trace);
      if target.None? {
        failed := Some(CandidateAddressUnavailable);
        return;
      }
      var ok := ApplyRoute(app, target.value, env.apply);
      m, trace := Tick(w0, w, Now(), app, env, m, trace);
      w := Now();
      if !ok {
        ok := RemoveForce(app, staging, env.applyRm);
        m, trace := Tick(w0, w, Now(), app, env, m, trace);
        failed := Some(ProxySwitchFailed);
        return;
      }

      m, trace := Idle(w0, w, app, env, m, trace);
      if !env.verify {
        ElsewhereReflexive(w, app);
        var known := Exists(app, active, env.seesActive);
        if known {
          var oldTarget := ContainerTarget(app, active, env.activeAddress);
          if oldTarget.Some? {
            ok := ApplyRoute(app, oldTarget.value, env.restore);
          }
        }
        m, trace := Tick(w0, w, Now(), app, env, m, trace);
        w := Now();
        ok := RemoveForce(app, staging, env.verifyRm);
        m, trace := Tick(w0, w, Now(), app, env, m, trace);
        failed := Some(ProxyValidationFailed);
        return;
      }
      failed := None;
    }

    /** Only after Caddy serves the new colour is the old one retired. */
    method RetireOldColour(app: Application, env: Env, active: Colour, staging: Colour,
                           ghost w0: World, ghost before: Machine, ghost prefix: seq<Slot>)
      returns (exit: Exit, ghost m: Machine, ghost trace: seq<Slot>)
      requires Follows(w0, Now(), app, env, before, prefix)
      requires before.phase.Retire? && before.active == active && before.staging == staging
      modifies this
      ensures Follows(w0, Now(), app, env, m, trace) && m.phase == Stopped(exit)
    {
      hide View, Put, Elsewhere, Follows, Trace, Final;
      FollowsView(w0, Now(), app, env, before, prefix);
      ghost var w := Now();
      m, trace := before, prefix;
      var ok := true;
      var retiring := Exists(app, active, env.seesActive);
      if retiring && active != staging {
        ok := RemoveIfPresent(app, active, env.seesActiveAgain, env.retire);
      } else {
        ElsewhereReflexive(w, app);
      }
      m, trace := Tick(w0, w, Now(), app, env, m, trace);
      w := Now();
      if !ok {
        return PreviousCleanupFailed, m, trace;
      }
      if staging != Candidate {
        ok := RenameContainer(app, staging, Candidate, env.rename);
        m, trace := Tick(w0, w, Now(), app, env, m, trace);
        if !ok {
          return CandidatePromoteFailed, m, trace;
        }
      }
      return Released, m, trace;
    }

    /** The whole switch: it reports and leaves what Exits tells, and follows the machine;
        the trace holds the application's slot after every step. */
    method Start(app: Application, env: Env) returns (exit: Exit, ghost trace: seq<Slot>)
      modifies this
      ensures var m0 := Begin(View(old(Now()), app));
              && exit == Final(app.port, env, m0).phase.exit
              && Now() == Put(old(Now()), app, Final(app.port, env, m0).slot)
              && trace == Trace(app.port, env, m0)
      ensures Ends(View(old(Now()), app), app.port, env, exit, View(Now(), app))
      ensures Elsewhere(old(Now()), Now(), app)
    {
      hide View, Put, Elsewhere, Follows, Trace, Final, Step, Ends;
      ghost var w0 := Now();
      StartEnds(View(w0, app), app.port, env);
      ghost var m: Machine;
      var failed, active, staging;
      failed, active, staging, m, trace := StageRelease(app, env);
      if failed.None? {
        failed, m, trace := SwitchRoute(app, env, active, staging, w0, m, trace);
      }
      if failed.Some? {
        Stop(w0, Now(), app, env, m, trace);
        return failed.value, trace;
      }
      exit, m, trace := RetireOldColour(app, env, active, staging, w0, m, trace);
      Stop(w0, Now(), app, env, m, trace);
    }

    // ---- Executor.Reconcile ----

    /** One application's turn of the pass. */
    method ReconcileOne(app: Application, env: ReconEnv) returns (verdict: Verdict)
      modifies this
      ensures var o := ReconcileSlot(View(old(Now()), app), app.port, env);
              verdict == o.verdict && Now() == Put(old(Now()), app, o.slot)
    {
      ghost var w0 := Now();
      verdict := ReconcileCalls(app, env);
      ElsewherePut(w0, Now(), app);
    }

    method RerouteTo(app: Application, c: Colour, env: ReconEnv) returns (ok: bool)
      requires ContainerName(app.name, c) in containers
      modifies this
      ensures var o := Reroute(View(old(Now()), app), c, app.port, env);
              ok == (o.verdict != Failed) && View(Now(), app) == o.slot
      ensures Elsewhere(old(Now()), Now(), app)
    {
      ghost var w0 := Now();
      var target := ContainerTarget(app, c, env.address);
      if target.None? {
        return false;
      }
      ok := ApplyRoute(app, target.value, env.apply);
      if !ok {
        return false;
      }
      ghost var w1 := Now();
      ok := RemoveIfPresent(app, Next, env.seesNext, env.rmNext);
      ElsewhereTransitive(w0, w1, Now(), app);
    }

    method RestorePrevious(app: Application, env: ReconEnv) returns (ok: bool)
      requires ContainerName(app.name, Previous) in containers
      modifies this
      ensures var o := Reconcile.Restore(View(old(Now()), app), app.port, env);
              ok == (o.verdict != Failed) && View(Now(), app) == o.slot
      ensures Elsewhere(old(Now()), Now(), app)
    {
      ghost var w0 := Now();
      ok := StartContainer(app, Previous, env.start, env.startIp);
      if !ok {
        return false;
      }
      ghost var w1 := Now();
      ok := WaitHealthy(app, Previous, env.healthy);
      ElsewhereTransitive(w0, w1, Now(), app);
      if !ok {
        return false;
      }
      ghost var w2 := Now();
      ok := RenameContainer(app, Previous, Primary, env.rename);
      ElsewhereTransitive(w0, w2, Now(), app);
      if !ok {
        return false;
      }
      ghost var w3 := Now();
      var target := ContainerTarget(app, Primary, env.address);
      if target.None? {
        return false;
      }
      ok := ApplyRoute(app, target.value, env.apply);
      ElsewhereTransitive(w0, w3, Now(), app);
    }

    method ReconcileCalls(app: Application, env: ReconEnv) returns (verdict: Verdict)
      modifies this
      ensures var o := ReconcileSlot(View(old(Now()), app), app.port, env);
              verdict == o.verdict && View(Now(), app) == o.slot
      ensures Elsewhere(old(Now()), Now(), app)
    {
      ghost var w0 := Now();
      if !env.docker {
        return Unchanged;
      }
      var found := Exists(app, Candidate, env.seesCandidate);
      if found {
        var ok := RerouteTo(app, Candidate, env);
        return if ok then Rerouted else Failed;
      }
      var primaryExists := Exists(app, Primary, env.seesPrimary);
      var previousExists := Exists(app, Previous, env.seesPrevious);
      if primaryExists {
        var ok := RerouteTo(app, Primary, env);
        if !ok {
          return Failed;
        }
        if previousExists {
          ghost var w1 := Now();
          ok := RemoveIfPresent(app, Previous, env.seesPreviousAgain, env.rmPrevious);
          ElsewhereTransitive(w0, w1, Now(), app);
          if !ok {
            return Failed;
          }
        }
        return Rerouted;
      }
      if previousExists {
        var ok := RestorePrevious(app, env);
        return if ok then Restored else Failed;
      }
      return Unchanged;
    }

    /** The pass over all applications, stopping at the first error. */
    method ReconcileList(apps: seq<Application>, envs: seq<ReconEnv>) returns (restored: seq<int>, ok: bool)
      requires |envs| == |apps|
      modifies this
      ensures Pass(Now(), restored, ok) == ReconcileAll(old(Now()), apps, envs)
    {
      hide View, Put, ReconcileSlot, ReconcileAll, Ahead;
      ghost var w0 := Now();
      restored, ok := [], true;
      WholeList(apps, envs);
      AheadOfNothing(ReconcileAll(w0, apps, envs));
      for i := 0 to |apps|
        invariant ok
        invariant Ahead(restored, ReconcileAll(Now(), apps[i..], envs[i..])) == ReconcileAll(w0, apps, envs)
      {
        PassStep(Now(), apps, envs, i, restored);
        var verdict := ReconcileOne(apps[i], envs[i]);
        if verdict == Failed {
          return restored, false;
        }
        if verdict == Restored {
          restored := restored + [apps[i].id];
        }
      }
      PassEnd(Now(), apps, envs, restored);
    }
  }

  /** The result of a pass that has already restored some applications. */
  function Ahead(restored: seq<int>, p: Pass): Pass {
    p.(restored := restored + p.restored)
  }

  lemma AheadOfNothing(p: Pass)
    ensures Ahead([], p) == p
  {
  }

  lemma WholeList(apps: seq<Application>, envs: seq<ReconEnv>)
    requires |envs| == |apps|
    ensures apps[0..] == apps && envs[0..] == envs
  {
  }

  /** One turn of the loop. */
  lemma PassStep(w: World, apps: seq<Application>, envs: seq<ReconEnv>, i: nat, restored: seq<int>)
    requires i < |apps| == |envs|
    ensures var o := ReconcileSlot(View(w, apps[i]), apps[i].port, envs[i]);
            var v := Put(w, apps[i], o.slot);
            Ahead(restored, ReconcileAll(w, apps[i..], envs[i..]))
            == if o.verdict == Failed then Pass(v, restored, false)
               else Ahead(if o.verdict == Restored then restored + [apps[i].id] else restored,
                          ReconcileAll(v, apps[i + 1..], envs[i + 1..]))
  {
    hide View, Put, ReconcileSlot;
    assert apps[i..][1..] == apps[i + 1..] && envs[i..][1..] == envs[i + 1..];
    var o := ReconcileSlot(View(w, apps[i]), apps[i].port, envs[i]);
    var rest := ReconcileAll(Put(w, apps[i], o.slot), apps[i + 1..], envs[i + 1..]);
    assert restored + ([apps[i].id] + rest.restored) == restored + [apps[i].id] + rest.restored;
    assert [] + rest.restored == rest.restored;
    assert restored + [] == restored;
  }

  lemma PassEnd(w: World, apps: seq<Application>, envs: seq<ReconEnv>, restored: seq<int>)
    requires |envs| == |apps|
    ensures Ahead(restored, ReconcileAll(w, apps[|apps|..], envs[|apps|..])) == Pass(w, restored, true)
  {
    assert restored + [] == restored;
  }
}
