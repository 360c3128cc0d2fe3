/** Executor.Reconcile: the startup pass that turns whatever a crash left behind back
    into one routed container per application. */
module Reconcile {
  import opened Options
  import opened Containers
  import opened BlueGreen

  /** The outcome of every external call one pass can make for one application. An
      inspection that fails reads as absence. */
  datatype ReconEnv = ReconEnv(
    docker: bool,          // the application's runtime adapter is Docker's
    seesCandidate: bool, seesPrimary: bool, seesPrevious: bool,
    address: bool, apply: Call,
    seesNext: bool, rmNext: Call,
    start: Call, startIp: nat, healthy: bool, rename: Call,
    seesPreviousAgain: bool, rmPrevious: Call)

  /** `Unchanged` is an application the pass has nothing to do for. */
  datatype Verdict = Unchanged | Rerouted | Restored | Failed

  datatype Outcome = Outcome(slot: Slot, verdict: Verdict)

  predicate Sees(s: Slot, c: Colour, inspected: bool) {
    c in s.containers && inspected
  }

  /** docker start: a stopped container runs again, with a newly assigned address. */
  function Started(s: Slot, c: Colour, call: Call, ip: nat): Slot
    requires c in s.containers
  {
    if Took(call) && !s.containers[c].running
    then s.(containers := s.containers[c := s.containers[c].(running := true, ip := ip)])
    else s
  }

  function RemoveIfPresent(s: Slot, c: Colour, inspected: bool, call: Call): Slot {
    if Sees(s, c, inspected) then Remove(s, c, call) else s
  }

  predicate RemovalFails(s: Slot, c: Colour, inspected: bool, call: Call) {
    Sees(s, c, inspected) && call != Done
  }

  /** Point the route at `c` and discard the staging colour. */
  function Reroute(s: Slot, c: Colour, port: int, env: ReconEnv): Outcome
    requires c in s.containers
  {
    if !HasTarget(s, c, port, env.address) then Outcome(s, Failed) else
    var routed := Route(s, c, port, env.apply);
    if env.apply != Done then Outcome(routed, Failed) else
    Outcome(RemoveIfPresent(routed, Next, env.seesNext, env.rmNext),
            if RemovalFails(routed, Next, env.seesNext, env.rmNext) then Failed else Rerouted)
  }

  /** Bring the preserved previous container back under the primary name. */
  function Restore(s: Slot, port: int, env: ReconEnv): Outcome
    requires Previous in s.containers
  {
    var started := Started(s, Previous, env.start, env.startIp);
    if env.start != Done || !env.healthy then Outcome(started, Failed) else
    var proven := MarkProven(started, Previous);
    var renamed := Rename(proven, Previous, Primary, env.rename);
    if env.rename != Done || !CanRename(proven, Previous, Primary) then Outcome(renamed, Failed) else
    if !HasTarget(renamed, Primary, port, env.address) then Outcome(renamed, Failed) else
    Outcome(Route(renamed, Primary, port, env.apply), if env.apply == Done then Restored else Failed)
  }

  function ReconcileSlot(s: Slot, port: int, env: ReconEnv): Outcome {
    if !env.docker then Outcome(s, Unchanged) else
    if Sees(s, Candidate, env.seesCandidate) then Reroute(s, Candidate, port, env) else
    if Sees(s, Primary, env.seesPrimary) then
      var o := Reroute(s, Primary, port, env);
      if o.verdict == Failed || !Sees(s, Previous, env.seesPrevious) then o else
      Outcome(RemoveIfPresent(o.slot, Previous, env.seesPreviousAgain, env.rmPrevious),
              if RemovalFails(o.slot, Previous, env.seesPreviousAgain, env.rmPrevious) then Failed else Rerouted)
    else if Sees(s, Previous, env.seesPrevious) then Restore(s, port, env)
    else Outcome(s, Unchanged)
  }

  /** Every inspection answers, so absence is really absence. */
  predicate Truthful(env: ReconEnv) {
    env.docker && env.seesCandidate && env.seesPrimary && env.seesPrevious && env.seesNext && env.seesPreviousAgain
  }

  /** The colour whose container serves after a successful pass. */
  function Survivor(s: Slot, env: ReconEnv): Option<Colour> {
    if Sees(s, Candidate, env.seesCandidate) then Some(Candidate)
    else if Sees(s, Primary, env.seesPrimary) then Some(Primary)
    else if Sees(s, Previous, env.seesPrevious) then Some(Previous)
    else None
  }

  /** A successful pass routes the candidate it sees, else the primary, else the
      previous container restored, health-checked and renamed to primary; what it
      removes is exactly the staging colour and, behind a primary, the stale previous. */
  lemma ReconcileSettles(s: Slot, port: int, env: ReconEnv)
    requires env.docker && ReconcileSlot(s, port, env).verdict != Failed
    ensures var r := ReconcileSlot(s, port, env).slot;
            var gone := if env.seesNext then {Next} else {};
            match Survivor(s, env)
            case None => r == s
            case Some(Candidate) => RoutedOn(r, port, Candidate) && r.containers == s.containers - gone
            case Some(Primary) =>
              && RoutedOn(r, port, Primary)
              && r.containers == s.containers - gone - (if env.seesPrevious && env.seesPreviousAgain then {Previous} else {})
            case Some(Next) => false
            case Some(Previous) =>
              && RoutedOn(r, port, Primary) && Previous !in r.containers
              && r.containers[Primary].running && r.containers[Primary].proven
              && (s.containers[Previous].running ==> r.containers[Primary].ip == s.containers[Previous].ip)
              && r.containers - {Primary} == s.containers - {Previous}
  {
  }

  /** Whatever fails, and however inspections answer: a pass never removes a candidate
      or a primary, and a route it changes dials a container that exists. */
  lemma ReconcileNeverStrands(s: Slot, port: int, env: ReconEnv)
    ensures var r := ReconcileSlot(s, port, env).slot;
            && (Candidate in s.containers ==> Candidate in r.containers && r.containers[Candidate] == s.containers[Candidate])
            && (Primary in s.containers ==> Primary in r.containers && r.containers[Primary] == s.containers[Primary])
            && (r.route != s.route ==> RoutedOn(r, port, Candidate) || RoutedOn(r, port, Primary))
            && (Survivor(s, env).Some? && env.docker ==> Candidate in r.containers || Primary in r.containers || Previous in r.containers)
  {
  }

  /** A previous container is restored, and a staging one is left where it was. */
  predicate LeavesNext(s: Slot, env: ReconEnv) {
    Survivor(s, env) == Some(Previous) && Next in s.containers
  }

  /** A second successful pass changes nothing, except exactly where the first one
      restored a previous container beside an abandoned staging one. */
  lemma ReconcileTwiceExactly(s: Slot, port: int, env: ReconEnv, again: ReconEnv)
    requires Truthful(env) && Truthful(again)
    requires ReconcileSlot(s, port, env).verdict != Failed
    requires ReconcileSlot(ReconcileSlot(s, port, env).slot, port, again).verdict != Failed
    ensures ReconcileSlot(ReconcileSlot(s, port, env).slot, port, again).slot == ReconcileSlot(s, port, env).slot
            <==> !LeavesNext(s, env)
  {
  }

  // ---- After a crash during Start ----

  /** Caddy restarted from its bootstrap file. */
  function LoseRoute(s: Slot, lost: bool): Slot {
    if lost then s.(route := None) else s
  }

  /** Crash anywhere in a Start beside a checked candidate, wherever its route pointed,
      while a candidate exists: a successful pass that sees it ends live with nothing
      staged, even if Caddy lost its routes. */
  lemma CrashThenReconcile(s0: Slot, port: int, env: Env, s: Slot, lost: bool, recon: ReconEnv)
    requires Checked(s0, Candidate) && !MistakesLive(env)
    requires s in [s0] + Trace(port, env, Begin(s0))
    requires Candidate in s.containers
    requires recon.docker && recon.seesCandidate
    requires ReconcileSlot(LoseRoute(s, lost), port, recon).verdict != Failed
    ensures var r := ReconcileSlot(LoseRoute(s, lost), port, recon).slot;
            && Live(r, port) && r.containers == s.containers - (if recon.seesNext then {Next} else {})
            && (Addressing(s0, env) ==> OwnAddresses(r))
  {
    CrashShapes(s0, port, env);
    ReconcileSettles(LoseRoute(s, lost), port, recon);
    if Addressing(s0, env) {
      AddressTrace(port, env, Begin(s0));
    }
  }

  /** A container that is started again gets an unused address. */
  predicate FreshAddress(s: Slot, env: ReconEnv) {
    forall c :: c in s.containers ==> s.containers[c].ip != env.startIp
  }

  /** Crash between the removal of the old colour and the rename: the new colour, still
      called next, survives the pass and stays routed exactly when Caddy kept its routes
      and neither a primary nor a previous container is left over. */
  lemma CrashInWindowExactly(s0: Slot, port: int, env: Env, s: Slot, lost: bool, recon: ReconEnv)
    requires Checked(s0, Candidate) && Addressing(s0, env) && !MistakesLive(env)
    requires s in [s0] + Trace(port, env, Begin(s0))
    requires Candidate !in s.containers
    requires Truthful(recon) && ReconcileSlot(LoseRoute(s, lost), port, recon).verdict != Failed
    requires FreshAddress(s, recon)
    ensures RoutedOn(s, port, Next) && Checked(s, Next)
    ensures RoutedOn(ReconcileSlot(LoseRoute(s, lost), port, recon).slot, port, Next)
            <==> !lost && Primary !in s0.containers && Previous !in s0.containers
    ensures Primary !in s0.containers && Previous !in s0.containers ==>
              ReconcileSlot(LoseRoute(s, lost), port, recon).slot == LoseRoute(s, lost)
  {
    CrashShapes(s0, port, env);
    AddressTrace(port, env, Begin(s0));
    ReconcileSettles(LoseRoute(s, lost), port, recon);
  }

  /** A successful pass leaves the route served exactly when the container it settled on
      had passed a health check: always for a restored previous, which the pass checks
      itself, and as before where it found nothing. */
  lemma PassServedExactly(s: Slot, port: int, env: ReconEnv)
    requires env.docker && ReconcileSlot(s, port, env).verdict != Failed
    requires OwnAddresses(s) && FreshAddress(s, env)
    ensures Served(ReconcileSlot(s, port, env).slot, port) <==>
              match Survivor(s, env)
              case None => Served(s, port)
              case Some(Previous) => true
              case Some(c) => c in s.containers && s.containers[c].proven
  {
    var r := ReconcileSlot(s, port, env).slot;
    ReconcileSettles(s, port, env);
    match Survivor(s, env)
    case Some(Candidate) => assert RoutedOn(r, port, Candidate);
    case Some(Primary) => assert RoutedOn(r, port, Primary);
    case Some(Previous) => assert RoutedOn(r, port, Primary);
    case _ =>
  }

  // ---- Any number of releases, crashes and passes ----

  /** What happens to an application: a Start runs to its exit; or the process dies with
      the slot `crash`; or a new process reconciles, whether Caddy kept its routes or not
      and whether the pass succeeds or not. */
  datatype Round =
    | Completes(env: Env)
    | Crashes(env: Env, crash: Slot)
    | Passes(lost: bool, recon: ReconEnv)

  function RunRound(s: Slot, port: int, r: Round): Slot {
    match r
    case Completes(env) => Final(port, env, Begin(s)).slot
    case Crashes(_, crash) => crash
    case Passes(lost, recon) => ReconcileSlot(LoseRoute(s, lost), port, recon).slot
  }

  /** A round the process can take from `s` in which no Start mistakes the candidate for
      an absent one, and none ends between the removal of the old colour and the rename. */
  predicate OutsideWindow(s: Slot, port: int, r: Round) {
    match r
    case Completes(env) => !MistakesLive(env) && !EndsInWindow(s, port, env)
    case Crashes(env, crash) =>
      !MistakesLive(env) && crash in [s] + Trace(port, env, Begin(s)) && Candidate in crash.containers
    case Passes(_, _) => true
  }

  function RunRounds(s: Slot, port: int, rs: seq<Round>): Slot
    decreases rs
  {
    if rs == [] then s else RunRounds(RunRound(s, port, rs[0]), port, rs[1..])
  }

  predicate AllOutsideWindow(s: Slot, port: int, rs: seq<Round>)
    decreases rs
  {
    rs == [] || (OutsideWindow(s, port, rs[0]) && AllOutsideWindow(RunRound(s, port, rs[0]), port, rs[1..]))
  }

  /** The round is a reported success, or a successful pass that sees the candidate. */
  predicate Settles(s: Slot, port: int, r: Round) {
    match r
    case Completes(env) => Final(port, env, Begin(s)).phase.exit == Released
    case Crashes(_, _) => false
    case Passes(lost, recon) =>
      recon.docker && recon.seesCandidate && ReconcileSlot(LoseRoute(s, lost), port, recon).verdict != Failed
  }

  lemma RoundKeepsChecked(s: Slot, port: int, r: Round)
    requires Checked(s, Candidate) && OutsideWindow(s, port, r)
    ensures Checked(RunRound(s, port, r), Candidate)
    ensures Settles(s, port, r) ==> Live(RunRound(s, port, r), port)
  {
    match r
    case Completes(env) => CrashShapes(s, port, env);
    case Crashes(env, crash) => CrashShapes(s, port, env);
    case Passes(lost, recon) => ReconcileNeverStrands(LoseRoute(s, lost), port, recon);
  }

  /** Over any number of releases with any outcome, crashes and passes, failed or not, a
      candidate that passed its health check is there after every round, and the
      application is live after every reported success and every successful pass. */
  lemma {:induction false} LiveForever(s: Slot, port: int, rs: seq<Round>, last: Round)
    requires Checked(s, Candidate) && AllOutsideWindow(s, port, rs + [last])
    ensures Checked(RunRounds(s, port, rs + [last]), Candidate)
    ensures Settles(RunRounds(s, port, rs), port, last) ==> Live(RunRounds(s, port, rs + [last]), port)
    decreases rs
  {
    var all := rs + [last];
    RoundKeepsChecked(s, port, all[0]);
    if rs == [] {
      assert all[1..] == [];
    } else {
      assert all[1..] == rs[1..] + [last];
      LiveForever(RunRound(s, port, rs[0]), port, rs[1..], last);
    }
  }

  // ---- Outside those rounds ----

  /** The candidate is still there, but the route dials next. */
  predicate ServesBeside(s: Slot, port: int) {
    Candidate in s.containers && RoutedOn(s, port, Next) && Checked(s, Next)
  }

  /** The exits that leave such a slot: the old colour was not retired, so the new one
      could not be promoted, or a switch reported as failed was neither undone nor its
      container removed. */
  predicate LeavesBeside(s: Slot, port: int, env: Env) {
    && ReachesApply(s, port, env)
    && match env.apply
       case Refused => false
       case Lost => env.applyRm == Refused
       case Done => if env.verify then Retires(env) ==> env.retire == Refused
                    else !RouteRestored(env) && env.verifyRm == Refused
  }

  lemma EndsBesideExactly(s0: Slot, port: int, env: Env)
    requires Live(s0, port) && Addressing(s0, env) && !MistakesLive(env)
    ensures ServesBeside(Final(port, env, Begin(s0)).slot, port) <==> LeavesBeside(s0, port, env)
  {
    BeginInv(s0, port, env);
    InvFinal(s0, port, env, Begin(s0));
    AddressTrace(port, env, Begin(s0));
  }

  /** From such a slot a Start that sees the candidate takes the routed container for an
      abandoned staging one: the route stays served exactly if it gives up before, or
      fails to remove it. */
  lemma StartBesideExactly(s: Slot, port: int, env: Env)
    requires ServesBeside(s, port) && Addressing(s, env) && env.seesCandidate
    ensures AllServed(Trace(port, env, Begin(s)), port) <==> !env.network || env.clean == Refused
  {
    var m1 := Step(port, env, Begin(s));
    var t := Trace(port, env, Begin(s));
    assert t == [m1.slot] + Trace(port, env, m1);
    if env.network {
      var m2 := Step(port, env, m1);
      var m3 := Step(port, env, m2);
      assert Trace(port, env, m1) == [m2.slot] + Trace(port, env, m2);
      assert Trace(port, env, m2) == [m3.slot] + Trace(port, env, m3);
      assert t[2] == m3.slot;
      if Took(env.clean) {
        ServedOnlyBy(m3.slot, port, s.containers[Next].ip);
      } else {
        var m4 := Step(port, env, m3);
        assert Trace(port, env, m3) == [m4.slot] + Trace(port, env, m4);
        assert t == [s, s, s, s];
      }
    } else {
      assert t == [s];
    }
  }

  /** The Start after one that ended beside next. */
  lemma StartAfterFailedPromotion(s0: Slot, port: int, env: Env, next: Env)
    requires Live(s0, port) && Addressing(s0, env) && !MistakesLive(env) && LeavesBeside(s0, port, env)
    requires Addressing(Final(port, env, Begin(s0)).slot, next) && next.seesCandidate
    ensures AllServed(Trace(port, next, Begin(Final(port, env, Begin(s0)).slot)), port)
            <==> !next.network || next.clean == Refused
  {
    EndsBesideExactly(s0, port, env);
    StartBesideExactly(Final(port, env, Begin(s0)).slot, port, next);
  }

  /** The first deployment has no such protection: a crash right after its container
      starts lets the pass route to a candidate no health check has accepted. */
  lemma FirstDeployCrash(port: int, env: Env, recon: ReconEnv)
    requires env.network && env.run == Done && ValidPort(port)
    requires recon.docker && recon.seesCandidate && recon.address && recon.apply == Done
    ensures exists s :: s in Trace(port, env, Begin(Slot(map[], None)))
                     && var r := ReconcileSlot(s, port, recon).slot;
                        RoutedOn(r, port, Candidate) && !r.containers[Candidate].proven
  {
    var m0 := Begin(Slot(map[], None));
    var m1 := Step(port, env, m0);
    var m2 := Step(port, env, m1);
    var m3 := Step(port, env, m2);
    var m4 := Step(port, env, m3);
    assert Trace(port, env, m3) == [m4.slot] + Trace(port, env, m4);
    assert Trace(port, env, m2) == [m3.slot] + Trace(port, env, m3);
    assert Trace(port, env, m1) == [m2.slot] + Trace(port, env, m2);
    var t := Trace(port, env, m0);
    assert t == [m1.slot] + Trace(port, env, m1);
    assert t[3] == m4.slot;
    var r := ReconcileSlot(m4.slot, port, recon).slot;
    assert RoutedOn(r, port, Candidate) && !r.containers[Candidate].proven;
    assert m4.slot in t;
  }

  // ---- The whole pass ----

  datatype Pass = Pass(world: World, restored: seq<int>, ok: bool)

  /** The applications in order, stopping at the first failure. */
  function ReconcileAll(w: World, apps: seq<Application>, envs: seq<ReconEnv>): Pass
    requires |envs| == |apps|
    decreases apps
  {
    if apps == [] then Pass(w, [], true) else
    var o := ReconcileSlot(View(w, apps[0]), apps[0].port, envs[0]);
    var w' := Put(w, apps[0], o.slot);
    if o.verdict == Failed then Pass(w', [], false) else
    var rest := ReconcileAll(w', apps[1..], envs[1..]);
    rest.(restored := (if o.verdict == Restored then [apps[0].id] else []) + rest.restored)
  }

  predicate Apart(a: Application, b: Application) {
    a.id != b.id && NamesOf(a.name) !! NamesOf(b.name)
  }

  predicate AllApart(apps: seq<Application>) {
    forall i, j :: 0 <= i < j < |apps| ==> Apart(apps[i], apps[j])
  }

  /** An application that collides with none of the list is not touched. */
  lemma {:induction false} PassTouchesOnlyListed(w: World, apps: seq<Application>, envs: seq<ReconEnv>, other: Application)
    requires |envs| == |apps|
    requires forall a :: a in apps ==> Apart(a, other)
    ensures View(ReconcileAll(w, apps, envs).world, other) == View(w, other)
    decreases apps
  {
    hide View, Put, ReconcileSlot, NamesOf;
    if apps != [] {
      var o := ReconcileSlot(View(w, apps[0]), apps[0].port, envs[0]);
      assert apps[0] in apps;
      ViewOther(w, apps[0], o.slot, other);
      PassTouchesOnlyListed(Put(w, apps[0], o.slot), apps[1..], envs[1..], other);
    }
  }

  /** After a successful pass over applications that do not collide, each one is in
      exactly the state its own reconciliation from the initial world leaves, and none
      of them failed: the order and the neighbours do not matter. */
  lemma {:induction false} PassIsPerApplication(w: World, apps: seq<Application>, envs: seq<ReconEnv>, i: nat)
    requires |envs| == |apps| && i < |apps| && AllApart(apps)
    requires ReconcileAll(w, apps, envs).ok
    ensures var o := ReconcileSlot(View(w, apps[i]), apps[i].port, envs[i]);
            o.verdict != Failed && View(ReconcileAll(w, apps, envs).world, apps[i]) == o.slot
    decreases apps
  {
    hide View, Put, ReconcileSlot, NamesOf;
    var o := ReconcileSlot(View(w, apps[0]), apps[0].port, envs[0]);
    var w' := Put(w, apps[0], o.slot);
    var rest, restEnvs := apps[1..], envs[1..];
    if i == 0 {
      ViewPut(w, apps[0], o.slot);
      forall a | a in rest
        ensures Apart(a, apps[0])
      {
        var j :| 0 <= j < |rest| && rest[j] == a;
        assert Apart(apps[0], apps[j + 1]);
      }
      PassTouchesOnlyListed(w', rest, restEnvs, apps[0]);
    } else {
      assert Apart(apps[0], apps[i]);
      ViewOther(w, apps[0], o.slot, apps[i]);
      PassIsPerApplication(w', rest, restEnvs, i - 1);
    }
  }

  /** Two successful passes over the list: application by application the second one
      changes nothing, except exactly where the first restored a previous container
      beside an abandoned staging one. */
  lemma PassTwiceExactly(w: World, apps: seq<Application>, envs: seq<ReconEnv>, again: seq<ReconEnv>, i: nat)
    requires |envs| == |apps| == |again| && i < |apps| && AllApart(apps)
    requires Truthful(envs[i]) && Truthful(again[i])
    requires ReconcileAll(w, apps, envs).ok && ReconcileAll(ReconcileAll(w, apps, envs).world, apps, again).ok
    ensures var w1 := ReconcileAll(w, apps, envs).world;
            var w2 := ReconcileAll(w1, apps, again).world;
            View(w2, apps[i]) == View(w1, apps[i])
            <==> !LeavesNext(View(w, apps[i]), envs[i])
  {
    hide ReconcileSlot, Survivor, Truthful;
    PassIsPerApplication(w, apps, envs, i);
    PassIsPerApplication(ReconcileAll(w, apps, envs).world, apps, again, i);
    ReconcileTwiceExactly(View(w, apps[i]), apps[i].port, envs[i], again[i]);
  }

  lemma {:induction false} StillPass(w: World, apps: seq<Application>, envs: seq<ReconEnv>)
    requires |envs| == |apps| && ReconcileAll(w, apps, envs).ok
    requires forall i :: 0 <= i < |apps| ==> ReconcileSlot(View(w, apps[i]), apps[i].port, envs[i]).slot == View(w, apps[i])
    ensures ReconcileAll(w, apps, envs).world == w
    decreases apps
  {
    hide View, Put, ReconcileSlot;
    if apps != [] {
      PutView(w, apps[0]);
      assert forall i :: 0 <= i < |apps[1..]| ==> apps[1..][i] == apps[i + 1] && envs[1..][i] == envs[i + 1];
      StillPass(w, apps[1..], envs[1..]);
    }
  }

  /** The whole world, containers and routes of everything on the host included, is as
      the first pass left it exactly if no application was restored beside a next. */
  lemma PassSettlesWorldExactly(w: World, apps: seq<Application>, envs: seq<ReconEnv>, again: seq<ReconEnv>)
    requires |envs| == |apps| == |again| && AllApart(apps)
    requires forall i :: 0 <= i < |apps| ==> Truthful(envs[i]) && Truthful(again[i])
    requires ReconcileAll(w, apps, envs).ok && ReconcileAll(ReconcileAll(w, apps, envs).world, apps, again).ok
    ensures var w1 := ReconcileAll(w, apps, envs).world;
            ReconcileAll(w1, apps, again).world == w1
            <==> forall i :: 0 <= i < |apps| ==> !LeavesNext(View(w, apps[i]), envs[i])
  {
    hide View, ReconcileSlot, ReconcileAll, LeavesNext, Truthful;
    var w1 := ReconcileAll(w, apps, envs).world;
    forall i | 0 <= i < |apps|
      ensures View(ReconcileAll(w1, apps, again).world, apps[i]) == View(w1, apps[i]) <==> !LeavesNext(View(w, apps[i]), envs[i])
      ensures View(ReconcileAll(w1, apps, again).world, apps[i]) == ReconcileSlot(View(w1, apps[i]), apps[i].port, again[i]).slot
    {
      PassTwiceExactly(w, apps, envs, again, i);
      PassIsPerApplication(w1, apps, again, i);
    }
    if forall i :: 0 <= i < |apps| ==> !LeavesNext(View(w, apps[i]), envs[i]) {
      StillPass(w1, apps, again);
    }
  }

  /** The applications reported as restored are exactly those whose own reconciliation
      restored a previous container. */
  lemma {:induction false} RestoredExactly(w: World, apps: seq<Application>, envs: seq<ReconEnv>, i: nat)
    requires |envs| == |apps| && i < |apps| && AllApart(apps)
    requires ReconcileAll(w, apps, envs).ok
    ensures apps[i].id in ReconcileAll(w, apps, envs).restored
            <==> ReconcileSlot(View(w, apps[i]), apps[i].port, envs[i]).verdict == Restored
    decreases apps
  {
    hide View, Put, ReconcileSlot, NamesOf;
    var o := ReconcileSlot(View(w, apps[0]), apps[0].port, envs[0]);
    var w' := Put(w, apps[0], o.slot);
    var rest, restEnvs := apps[1..], envs[1..];
    if i == 0 {
      RestoredOnlyListed(w', rest, restEnvs, apps[0].id);
    } else {
      assert Apart(apps[0], apps[i]);
      ViewOther(w, apps[0], o.slot, apps[i]);
      RestoredExactly(w', rest, restEnvs, i - 1);
    }
  }

  lemma {:induction false} RestoredOnlyListed(w: World, apps: seq<Application>, envs: seq<ReconEnv>, id: int)
    requires |envs| == |apps|
    requires forall i :: 0 <= i < |apps| ==> apps[i].id != id
    ensures id !in ReconcileAll(w, apps, envs).restored
    decreases apps
  {
    hide View, Put, ReconcileSlot;
    if apps != [] {
      var o := ReconcileSlot(View(w, apps[0]), apps[0].port, envs[0]);
      RestoredOnlyListed(Put(w, apps[0], o.slot), apps[1..], envs[1..], id);
    }
  }
}
