/** The blue-green switch, DockerAdapter.Start, as a state machine over one
    application's containers and route. One step is one external call (or one group of
    calls of which only the last can change anything), so the slots of a trace are
    exactly the states a crash can leave behind. */
module BlueGreen {
  import opened Options
  import opened Containers

  /** How an external call ends. `Lost` is an error reported after the effect took
      place: a killed CLI, or a Caddy route replaced but not read back. */
  datatype Call = Done | Refused | Lost

  predicate Took(call: Call) {
    call != Refused
  }

  /** The outcome of every external call one Start can make. A cancelled job context
      makes every later inspection false and every later call Refused. */
  datatype Env = Env(
    network: bool,         // ensureDockerNetwork
    seesCandidate: bool,   // first inspection of the candidate, when it exists
    clean: Call,           // rm of an abandoned staging container
    run: Call, ip: nat,    // docker run and the address it assigns
    lostRuns: bool,        // a Lost docker run leaves its container running
    healthy: bool, unhealthyRm: Call,
    address: bool,         // inspection of the staged address
    apply: Call, applyRm: Call,
    verify: bool,
    seesActive: bool,      // inspection of the active colour after the switch
    activeAddress: bool, restore: Call, verifyRm: Call,
    seesActiveAgain: bool, retire: Call,
    rename: Call)

  datatype Exit =
    | Released
    | NetworkUnavailable
    | CandidateStartFailed
    | HealthCheckFailed
    | CandidateAddressUnavailable
    | ProxySwitchFailed
    | ProxyValidationFailed
    | PreviousCleanupFailed
    | CandidatePromoteFailed

  datatype Phase =
    | Network | Inspect | Clean | Launch | Health | Locate | Apply | Verify | Restore
    | Retire | Promote
    | Discard(reason: Exit)
    | Stopped(exit: Exit)

  datatype Machine = Machine(slot: Slot, phase: Phase, active: Colour, staging: Colour)

  function Begin(s: Slot): Machine {
    Machine(s, Network, Primary, Candidate)
  }

  // ---- Effects on a slot ----

  function Remove(s: Slot, c: Colour, call: Call): Slot {
    if Took(call) then s.(containers := s.containers - {c}) else s
  }

  /** docker run: a name in use is always an error and leaves the holder alone. */
  function Ran(s: Slot, c: Colour, call: Call): bool {
    c !in s.containers && call == Done
  }

  function Run(s: Slot, c: Colour, call: Call, ip: nat, lostRuns: bool): Slot {
    if c in s.containers || call == Refused then s
    else s.(containers := s.containers[c := Container(ip, call == Done || lostRuns, false)])
  }

  function MarkProven(s: Slot, c: Colour): Slot
    requires c in s.containers
  {
    s.(containers := s.containers[c := s.containers[c].(proven := true)])
  }

  function Route(s: Slot, c: Colour, port: int, call: Call): Slot
    requires c in s.containers
  {
    if Took(call) then s.(route := Some(Target(s.containers[c].ip, port))) else s
  }

  /** dockerContainerTarget answers for a running container and a valid port. */
  predicate HasTarget(s: Slot, c: Colour, port: int, inspected: bool) {
    inspected && c in s.containers && s.containers[c].running && ValidPort(port)
  }

  predicate CanRename(s: Slot, src: Colour, dst: Colour) {
    src in s.containers && dst !in s.containers
  }

  function Rename(s: Slot, src: Colour, dst: Colour, call: Call): Slot {
    if CanRename(s, src, dst) && Took(call)
    then s.(containers := (s.containers - {src})[dst := s.containers[src]])
    else s
  }

  function DiscardCall(env: Env, reason: Exit): Call {
    match reason
    case HealthCheckFailed => env.unhealthyRm
    case ProxySwitchFailed => env.applyRm
    case _ => env.verifyRm
  }

  // ---- One step ----

  function Rank(p: Phase): nat {
    match p
    case Network => 12 case Inspect => 11 case Clean => 10 case Launch => 9
    case Health => 8 case Locate => 7 case Apply => 6 case Verify => 5
    case Restore => 4 case Retire => 3 case Promote => 2
    case Discard(_) => 1 case Stopped(_) => 0
  }

  function Step(port: int, env: Env, m: Machine): (n: Machine)
    requires !m.phase.Stopped?
    ensures Rank(n.phase) < Rank(m.phase)
  {
    var s := m.slot;
    match m.phase
    case Network =>
      if env.network then m.(phase := Inspect) else m.(phase := Stopped(NetworkUnavailable))
    case Inspect =>
      if Candidate in s.containers && env.seesCandidate
      then m.(phase := Clean, active := Candidate, staging := Next)
      else m.(phase := Clean, active := Primary, staging := Candidate)
    case Clean =>
      m.(slot := Remove(s, m.staging, env.clean), phase := Launch)
    case Launch =>
      m.(slot := Run(s, m.staging, env.run, env.ip, env.lostRuns),
         phase := if Ran(s, m.staging, env.run) then Health else Stopped(CandidateStartFailed))
    case Health =>
      if env.healthy && m.staging in s.containers
      then m.(slot := MarkProven(s, m.staging), phase := Locate)
      else m.(phase := Discard(HealthCheckFailed))
    case Locate =>
      m.(phase := if HasTarget(s, m.staging, port, env.address) then Apply else Stopped(CandidateAddressUnavailable))
    case Apply =>
      if m.staging !in s.containers then m.(phase := Discard(ProxySwitchFailed)) else
      m.(slot := Route(s, m.staging, port, env.apply),
         phase := if env.apply == Done then Verify else Discard(ProxySwitchFailed))
    case Verify =>
      m.(phase := if env.verify then Retire else Restore)
    case Restore =>
      m.(slot := if env.seesActive && HasTarget(s, m.active, port, env.activeAddress)
                 then Route(s, m.active, port, env.restore) else s,
         phase := Discard(ProxyValidationFailed))
    case Retire =>
      if m.active in s.containers && env.seesActive && env.seesActiveAgain && m.active != m.staging
      then m.(slot := Remove(s, m.active, env.retire),
              phase := if env.retire != Done then Stopped(PreviousCleanupFailed) else AfterRetire(m.staging))
      else m.(phase := AfterRetire(m.staging))
    case Promote =>
      m.(slot := Rename(s, m.staging, Candidate, env.rename),
         phase := if env.rename == Done && CanRename(s, m.staging, Candidate) then Stopped(Released)
                  else Stopped(CandidatePromoteFailed))
    case Discard(reason) =>
      m.(slot := Remove(s, m.staging, DiscardCall(env, reason)), phase := Stopped(reason))
  }

  function AfterRetire(staging: Colour): Phase {
    if staging == Candidate then Stopped(Released) else Promote
  }

  /** Every slot after `m`, in order. */
  function Trace(port: int, env: Env, m: Machine): seq<Slot>
    decreases Rank(m.phase)
  {
    if m.phase.Stopped? then [] else
    var n := Step(port, env, m);
    [n.slot] + Trace(port, env, n)
  }

  function Final(port: int, env: Env, m: Machine): (n: Machine)
    ensures n.phase.Stopped?
    decreases Rank(m.phase)
  {
    if m.phase.Stopped? then m else Final(port, env, Step(port, env, m))
  }

  // ---- When the route stays served ----

  /** What Docker guarantees about addresses: no two containers share one, and a new
      container gets an unused one. */
  predicate Addressing(s: Slot, env: Env) {
    OwnAddresses(s) && forall c :: c in s.containers ==> s.containers[c].ip != env.ip
  }

  /** The staged container passes its checks and the route is about to be switched. */
  predicate ReachesApply(s: Slot, port: int, env: Env) {
    && env.network && env.seesCandidate
    && (Next in s.containers ==> Took(env.clean))
    && env.run == Done && env.healthy && env.address && ValidPort(port)
  }

  predicate RouteRestored(env: Env) {
    env.seesActive && env.activeAddress && Took(env.restore)
  }

  /** The three ways a Start can leave the route on nothing: the live candidate is not
      seen and is cleaned away as staging; the switch is reported as failed although
      Caddy took it, and the new colour is removed; the public check fails, the old
      route does not come back, and the new colour is removed. */
  predicate Hazard(s: Slot, port: int, env: Env) {
    || (env.network && !env.seesCandidate && Took(env.clean))
    || (ReachesApply(s, port, env) && env.apply == Lost && Took(env.applyRm))
    || (ReachesApply(s, port, env) && env.apply == Done && !env.verify && !RouteRestored(env) && Took(env.verifyRm))
  }

  predicate AllServed(trace: seq<Slot>, port: int) {
    forall i :: 0 <= i < |trace| ==> Served(trace[i], port)
  }

  /** The route of a slot whose containers all have their own address can only be
      served by the container it was pointed at. */
  lemma ServedOnlyBy(s: Slot, port: int, ip: nat)
    requires s.route == Some(Target(ip, port))
    requires forall c :: c in s.containers ==> s.containers[c].ip != ip
    ensures !Served(s, port)
  {
  }

  /** The live slot with the new colour running beside it. */
  function Fresh(s: Slot, env: Env, proven: bool): Slot {
    s.(containers := (s.containers - {Next})[Next := Container(env.ip, true, proven)])
  }

  function Switched(s: Slot, port: int, env: Env): Slot {
    Fresh(s, env, true).(route := Some(Target(env.ip, port)))
  }

  predicate Retires(env: Env) {
    env.seesActive && env.seesActiveAgain
  }

  /** The slot Promote starts from. */
  function Retired(s: Slot, port: int, env: Env): Slot {
    if Retires(env) then Remove(Switched(s, port, env), Candidate, Done) else Switched(s, port, env)
  }

  /** The serving container and the route are those of the slot Start began with. */
  predicate Untouched(s0: Slot, s: Slot) {
    && Candidate in s0.containers && Candidate in s.containers
    && s.containers[Candidate] == s0.containers[Candidate] && s.route == s0.route
  }

  predicate SwitchTaken(s: Slot, port: int, env: Env) {
    ReachesApply(s, port, env) && env.apply == Done
  }

  ghost predicate DiscardInv(s0: Slot, port: int, env: Env, reason: Exit, s: Slot) {
    match reason
    case HealthCheckFailed => s == Fresh(s0, env, false) && !env.healthy
    case ProxySwitchFailed =>
      && ReachesApply(s0, port, env) && env.apply != Done
      && s == (if env.apply == Lost then Switched(s0, port, env) else Fresh(s0, env, true))
    case ProxyValidationFailed =>
      && SwitchTaken(s0, port, env) && !env.verify
      && s == (if RouteRestored(env) then Switched(s0, port, env).(route := s0.route) else Switched(s0, port, env))
    case _ => false
  }

  ghost predicate StoppedInv(s0: Slot, port: int, env: Env, exit: Exit, s: Slot) {
    match exit
    case NetworkUnavailable => s == s0 && !env.network
    case CandidateStartFailed => Untouched(s0, s) && !ReachesApply(s0, port, env)
    case HealthCheckFailed => Untouched(s0, s) && !env.healthy
    case CandidateAddressUnavailable => Untouched(s0, s) && !(env.address && ValidPort(port))
    case ProxySwitchFailed =>
      exists d :: DiscardInv(s0, port, env, ProxySwitchFailed, d) && s == Remove(d, Next, env.applyRm)
    case ProxyValidationFailed =>
      exists d :: DiscardInv(s0, port, env, ProxyValidationFailed, d) && s == Remove(d, Next, env.verifyRm)
    case PreviousCleanupFailed =>
      && SwitchTaken(s0, port, env) && env.verify && Retires(env) && env.retire != Done
      && s == Remove(Switched(s0, port, env), Candidate, env.retire)
    case CandidatePromoteFailed =>
      && SwitchTaken(s0, port, env) && env.verify && (Retires(env) ==> env.retire == Done)
      && s == Rename(Retired(s0, port, env), Next, Candidate, env.rename)
      && !(env.rename == Done && Retires(env))
    case Released =>
      && SwitchTaken(s0, port, env) && env.verify && Retires(env) && env.retire == Done && env.rename == Done
      && s == Rename(Retired(s0, port, env), Next, Candidate, Done)
  }

  /** What is known in each phase of a Start that began live and does not mistake the
      live candidate for staging. */
  ghost predicate Inv(s0: Slot, port: int, env: Env, m: Machine) {
    var s := m.slot;
    && Live(s0, port)
    && (env.network ==> env.seesCandidate || env.clean == Refused)
    && (!m.phase.Network? && !m.phase.Stopped? ==> env.network)
    && (Rank(m.phase) <= 10 && !m.phase.Stopped? ==>
         if env.seesCandidate then m.active == Candidate && m.staging == Next
         else m.phase.Clean? || m.phase.Launch?)
    && (m.phase.Clean? || m.phase.Launch? ==> env.seesCandidate || m.staging == Candidate)
    && (Rank(m.phase) <= 8 && !m.phase.Stopped? ==>
         env.seesCandidate && (Next in s0.containers ==> Took(env.clean)) && env.run == Done)
    && match m.phase
       case Network => m == Begin(s0)
       case Inspect => s == s0
       case Clean => s == s0
       case Launch => s == Remove(s0, m.staging, env.clean)
       case Health => s == Fresh(s0, env, false)
       case Locate => s == Fresh(s0, env, true) && env.healthy
       case Apply => s == Fresh(s0, env, true) && ReachesApply(s0, port, env)
       case Verify => s == Switched(s0, port, env) && SwitchTaken(s0, port, env)
       case Restore => s == Switched(s0, port, env) && SwitchTaken(s0, port, env) && !env.verify
       case Retire => s == Switched(s0, port, env) && SwitchTaken(s0, port, env) && env.verify
       case Promote =>
         && s == Retired(s0, port, env) && SwitchTaken(s0, port, env) && env.verify
         && (Retires(env) ==> env.retire == Done)
       case Discard(reason) => DiscardInv(s0, port, env, reason, s)
       case Stopped(exit) => StoppedInv(s0, port, env, exit, s)
  }

  lemma InvStaging(s0: Slot, port: int, env: Env, m: Machine)
    requires Inv(s0, port, env, m) && !m.phase.Stopped? && Rank(m.phase) >= 7
    ensures Inv(s0, port, env, Step(port, env, m))
  {
  }

  lemma InvSwitching(s0: Slot, port: int, env: Env, m: Machine)
    requires Inv(s0, port, env, m) && !m.phase.Stopped? && Rank(m.phase) < 7
    ensures Inv(s0, port, env, Step(port, env, m))
  {
  }

  lemma InvStep(s0: Slot, port: int, env: Env, m: Machine)
    requires Inv(s0, port, env, m) && !m.phase.Stopped?
    ensures Inv(s0, port, env, Step(port, env, m))
  {
    hide Inv, Step;
    if Rank(m.phase) >= 7 {
      InvStaging(s0, port, env, m);
    } else {
      InvSwitching(s0, port, env, m);
    }
  }

  // ---- Main results about one Start ----

  /** The live candidate is taken for an absent one and cleaned away as staging. */
  predicate MistakesLive(env: Env) {
    env.network && !env.seesCandidate && Took(env.clean)
  }

  lemma InvFinal(s0: Slot, port: int, env: Env, m: Machine)
    requires Inv(s0, port, env, m)
    ensures Inv(s0, port, env, Final(port, env, m))
    decreases Rank(m.phase)
  {
    if !m.phase.Stopped? {
      InvStep(s0, port, env, m);
      InvFinal(s0, port, env, Step(port, env, m));
    }
  }

  lemma BeginInv(s0: Slot, port: int, env: Env)
    requires Live(s0, port) && !MistakesLive(env)
    ensures Inv(s0, port, env, Begin(s0))
  {
  }

  lemma InvServed(s0: Slot, port: int, env: Env, m: Machine)
    requires Inv(s0, port, env, m) && !Hazard(s0, port, env)
    ensures Served(m.slot, port)
  {
    var s := m.slot;
    assert (RoutedOn(s, port, Candidate) && Checked(s, Candidate)) || (RoutedOn(s, port, Next) && Checked(s, Next)) by {
      if m.phase.Stopped? {
        StoppedServed(s0, port, env, s, m.phase.exit);
      } else {
        hide StoppedInv;
      }
    }
  }

  lemma StoppedServed(s0: Slot, port: int, env: Env, s: Slot, exit: Exit)
    requires Live(s0, port) && StoppedInv(s0, port, env, exit, s) && !Hazard(s0, port, env)
    ensures (RoutedOn(s, port, Candidate) && Checked(s, Candidate)) || (RoutedOn(s, port, Next) && Checked(s, Next))
  {
  }

  lemma TraceServed(s0: Slot, port: int, env: Env, m: Machine)
    requires Inv(s0, port, env, m) && !Hazard(s0, port, env)
    ensures AllServed(Trace(port, env, m), port)
    decreases Rank(m.phase)
  {
    if !m.phase.Stopped? {
      var n := Step(port, env, m);
      InvStep(s0, port, env, m);
      InvServed(s0, port, env, n);
      TraceServed(s0, port, env, n);
    }
  }

  lemma LastIsFinal(port: int, env: Env, m: Machine)
    requires !m.phase.Stopped?
    ensures var t := Trace(port, env, m); |t| > 0 && t[|t| - 1] == Final(port, env, m).slot
    decreases Rank(m.phase)
  {
    var n := Step(port, env, m);
    if !n.phase.Stopped? {
      LastIsFinal(port, env, n);
    }
  }

  /** Cleaning away the live candidate leaves the route on nothing. */
  lemma MistakeUnserved(s0: Slot, port: int, env: Env)
    requires Live(s0, port) && OwnAddresses(s0) && MistakesLive(env)
    ensures !AllServed(Trace(port, env, Begin(s0)), port)
  {
    var m1 := Step(port, env, Begin(s0));
    var m2 := Step(port, env, m1);
    var m3 := Step(port, env, m2);
    assert m3.slot == Remove(s0, Candidate, env.clean);
    ServedOnlyBy(m3.slot, port, s0.containers[Candidate].ip);
    assert Trace(port, env, m2) == [m3.slot] + Trace(port, env, m3);
    assert Trace(port, env, m1) == [m2.slot] + Trace(port, env, m2);
    var t := Trace(port, env, Begin(s0));
    assert t == [m1.slot] + Trace(port, env, m1);
    assert t[2] == m3.slot;
  }

  /** Throughout a Start that began live the route dials an existing container that
      passed its health check, in every state a crash could expose, if and only if none
      of the three hazards occurs. */
  lemma RouteAlwaysServedExactly(s0: Slot, port: int, env: Env)
    requires Live(s0, port) && Addressing(s0, env)
    ensures AllServed(Trace(port, env, Begin(s0)), port) <==> !Hazard(s0, port, env)
  {
    if MistakesLive(env) {
      MistakeUnserved(s0, port, env);
    } else {
      BeginInv(s0, port, env);
      if Hazard(s0, port, env) {
        InvFinal(s0, port, env, Begin(s0));
        LastIsFinal(port, env, Begin(s0));
        ServedOnlyBy(Final(port, env, Begin(s0)).slot, port, env.ip);
      } else {
        TraceServed(s0, port, env, Begin(s0));
      }
    }
  }

  /** When a Start that began live ends live again. */
  predicate EndsOnCandidate(s: Slot, port: int, env: Env) {
    || !ReachesApply(s, port, env)
    || env.apply == Refused
    || (env.apply == Done && env.verify && Retires(env) && env.retire == Done && Took(env.rename))
    || (env.apply == Done && !env.verify && RouteRestored(env))
  }

  // ---- A Start that stages under the candidate's name ----

  /** There is no candidate, or it is taken for absent and cleaned away. */
  predicate StartsOver(s: Slot, env: Env) {
    Candidate !in s.containers || MistakesLive(env)
  }

  /** The new container is checked and about to be routed as the candidate. */
  predicate ReachesFirstApply(port: int, env: Env) {
    env.network && env.run == Done && env.healthy && env.address && ValidPort(port)
  }

  predicate PrimaryRestored(s: Slot, env: Env) {
    RouteRestored(env) && Primary in s.containers && s.containers[Primary].running
  }

  /** The new release as the candidate. */
  function Restarted(s: Slot, env: Env, proven: bool): Slot {
    s.(containers := (s.containers - {Candidate})[Candidate := Container(env.ip, true, proven)])
  }

  function RestartedRouted(s: Slot, port: int, env: Env): Slot {
    Restarted(s, env, true).(route := Some(Target(env.ip, port)))
  }

  /** The switch has failed and the staged container is about to be removed. */
  function Undone(s: Slot, port: int, env: Env): Slot {
    if env.apply == Refused then Restarted(s, env, true)
    else if env.apply == Done && PrimaryRestored(s, env)
    then RestartedRouted(s, port, env).(route := Some(Target(s.containers[Primary].ip, port)))
    else RestartedRouted(s, port, env)
  }

  ghost predicate OverDiscard(s0: Slot, port: int, env: Env, reason: Exit, s: Slot) {
    match reason
    case HealthCheckFailed => !env.healthy && s == Restarted(s0, env, false)
    case ProxySwitchFailed => ReachesFirstApply(port, env) && env.apply != Done && s == Undone(s0, port, env)
    case ProxyValidationFailed =>
      ReachesFirstApply(port, env) && env.apply == Done && !env.verify && s == Undone(s0, port, env)
    case _ => false
  }

  ghost predicate OverStopped(s0: Slot, port: int, env: Env, exit: Exit, s: Slot) {
    var cleaned := s0.(containers := s0.containers - {Candidate});
    match exit
    case NetworkUnavailable => s == s0 && !env.network
    case CandidateStartFailed => s == Run(cleaned, Candidate, env.run, env.ip, env.lostRuns) && env.run != Done
    case HealthCheckFailed => s == Remove(Restarted(s0, env, false), Candidate, env.unhealthyRm) && !env.healthy
    case CandidateAddressUnavailable => s == Restarted(s0, env, true) && !(env.address && ValidPort(port))
    case ProxySwitchFailed =>
      ReachesFirstApply(port, env) && env.apply != Done && s == Remove(Undone(s0, port, env), Candidate, env.applyRm)
    case ProxyValidationFailed =>
      && ReachesFirstApply(port, env) && env.apply == Done && !env.verify
      && s == Remove(Undone(s0, port, env), Candidate, env.verifyRm)
    case CandidatePromoteFailed => false
    case _ =>
      && ReachesFirstApply(port, env) && env.apply == Done && env.verify
      && s == if Primary in s0.containers && Retires(env)
              then Remove(RestartedRouted(s0, port, env), Primary, env.retire) else RestartedRouted(s0, port, env)
  }

  /** What is known in each phase of such a Start. */
  ghost predicate OverInv(s0: Slot, port: int, env: Env, m: Machine) {
    var s := m.slot;
    && StartsOver(s0, env)
    && (Rank(m.phase) <= 11 && !m.phase.Stopped? ==> env.network)
    && (Rank(m.phase) <= 10 && !m.phase.Stopped? ==> m.active == Primary && m.staging == Candidate)
    && (Rank(m.phase) <= 8 && !m.phase.Stopped? ==> env.run == Done)
    && match m.phase
       case Network => m == Begin(s0)
       case Inspect => s == s0
       case Clean => s == s0
       case Launch => s == s0.(containers := s0.containers - {Candidate})
       case Health => s == Restarted(s0, env, false)
       case Locate => s == Restarted(s0, env, true) && env.healthy
       case Apply => s == Restarted(s0, env, true) && ReachesFirstApply(port, env)
       case Verify => s == RestartedRouted(s0, port, env) && ReachesFirstApply(port, env) && env.apply == Done
       case Restore => s == RestartedRouted(s0, port, env) && ReachesFirstApply(port, env) && env.apply == Done && !env.verify
       case Retire => s == RestartedRouted(s0, port, env) && ReachesFirstApply(port, env) && env.apply == Done && env.verify
       case Promote => false
       case Discard(reason) => OverDiscard(s0, port, env, reason, s)
       case Stopped(exit) => OverStopped(s0, port, env, exit, s)
  }

  lemma OverStep(s0: Slot, port: int, env: Env, m: Machine)
    requires OverInv(s0, port, env, m) && !m.phase.Stopped?
    ensures OverInv(s0, port, env, Step(port, env, m))
  {
    hide OverInv, Step;
    if Rank(m.phase) >= 8 {
      OverStaging(s0, port, env, m);
    } else {
      OverSwitching(s0, port, env, m);
    }
  }

  lemma OverStaging(s0: Slot, port: int, env: Env, m: Machine)
    requires OverInv(s0, port, env, m) && Rank(m.phase) >= 8
    ensures OverInv(s0, port, env, Step(port, env, m))
  {
  }

  lemma OverSwitching(s0: Slot, port: int, env: Env, m: Machine)
    requires OverInv(s0, port, env, m) && !m.phase.Stopped? && Rank(m.phase) < 8
    ensures OverInv(s0, port, env, Step(port, env, m))
  {
  }

  lemma OverFinal(s0: Slot, port: int, env: Env, m: Machine)
    requires OverInv(s0, port, env, m)
    ensures OverInv(s0, port, env, Final(port, env, m))
    decreases Rank(m.phase)
  {
    hide OverInv, Step;
    if !m.phase.Stopped? {
      OverStep(s0, port, env, m);
      OverFinal(s0, port, env, Step(port, env, m));
    }
  }

  /** How such a Start can leave the route on nothing: the switch is reported as failed
      although Caddy took it; or the public check fails, and either the route goes back
      to a primary that never passed a check, or it goes back to nothing. In both the
      container the route was left on is removed. */
  predicate OverHazard(s: Slot, port: int, env: Env) {
    && ReachesFirstApply(port, env)
    && match env.apply
       case Refused => false
       case Lost => Took(env.applyRm)
       case Done => !env.verify && if PrimaryRestored(s, env) then !s.containers[Primary].proven else Took(env.verifyRm)
  }

  /** The route is where it was, on the checked new container, or on a checked primary. */
  predicate OverShape(s0: Slot, port: int, s: Slot, r: Colour) {
    || (s.route == s0.route && r in s0.containers && r in s.containers && s.containers[r] == s0.containers[r])
    || (RoutedOn(s, port, Candidate) && Checked(s, Candidate))
    || (RoutedOn(s, port, Primary) && Checked(s, Primary))
  }

  lemma OverShapeRunning(s0: Slot, port: int, env: Env, m: Machine, r: Colour)
    requires OverInv(s0, port, env, m) && !OverHazard(s0, port, env) && !m.phase.Stopped?
    requires r in s0.containers && r != Candidate
    ensures OverShape(s0, port, m.slot, r)
  {
  }

  lemma OverShapeStopped(s0: Slot, port: int, env: Env, s: Slot, exit: Exit, r: Colour)
    requires OverStopped(s0, port, env, exit, s) && !OverHazard(s0, port, env)
    requires r in s0.containers && r != Candidate
    ensures OverShape(s0, port, s, r)
  {
  }

  lemma OverServed(s0: Slot, port: int, env: Env, m: Machine, r: Colour)
    requires OverInv(s0, port, env, m) && !OverHazard(s0, port, env)
    requires Candidate !in s0.containers && RoutedOn(s0, port, r) && Checked(s0, r)
    ensures Served(m.slot, port)
  {
    var s := m.slot;
    assert OverShape(s0, port, s, r) by {
      hide OverStopped, OverHazard, OverDiscard, OverShape;
      if m.phase.Stopped? {
        OverShapeStopped(s0, port, env, s, m.phase.exit, r);
      } else {
        OverShapeRunning(s0, port, env, m, r);
      }
    }
    hide OverInv, OverHazard;
    assert s.route == s0.route && r in s.containers && s.containers[r] == s0.containers[r] ==> RoutedOn(s, port, r) && Checked(s, r);
  }

  lemma OverTrace(s0: Slot, port: int, env: Env, m: Machine, r: Colour)
    requires OverInv(s0, port, env, m) && !OverHazard(s0, port, env)
    requires Candidate !in s0.containers && RoutedOn(s0, port, r) && Checked(s0, r)
    ensures AllServed(Trace(port, env, m), port)
    decreases Rank(m.phase)
  {
    hide OverInv, OverHazard, Served, Step;
    if !m.phase.Stopped? {
      OverStep(s0, port, env, m);
      OverServed(s0, port, env, Step(port, env, m), r);
      OverTrace(s0, port, env, Step(port, env, m), r);
    }
  }

  lemma OverUnserved(s0: Slot, port: int, env: Env, s: Slot, exit: Exit)
    requires OverStopped(s0, port, env, exit, s) && OverHazard(s0, port, env)
    requires Addressing(s0, env) && Candidate !in s0.containers
    ensures !Served(s, port)
  {
  }

  /** A Start from a slot without a candidate (the first ones, those after a restored
      previous or after a crash in the window) keeps a served route served in every
      state if and only if that hazard does not occur. */
  lemma ServedWithoutCandidateExactly(s: Slot, port: int, env: Env, r: Colour)
    requires Candidate !in s.containers && RoutedOn(s, port, r) && Checked(s, r) && Addressing(s, env)
    ensures AllServed(Trace(port, env, Begin(s)), port) <==> !OverHazard(s, port, env)
  {
    hide OverStopped, OverDiscard, OverHazard, Served;
    if OverHazard(s, port, env) {
      var f := Final(port, env, Begin(s));
      OverFinal(s, port, env, Begin(s));
      LastIsFinal(port, env, Begin(s));
      OverUnserved(s, port, env, f.slot, f.phase.exit);
    } else {
      OverTrace(s, port, env, Begin(s), r);
    }
  }

  /** When a Start that cleaned away the live candidate ends live all the same. */
  predicate RecoversFromMistake(s: Slot, port: int, env: Env) {
    && ReachesFirstApply(port, env)
    && match env.apply
       case Refused => false
       case Lost => env.applyRm == Refused
       case Done => env.verify || (!PrimaryRestored(s, env) && env.verifyRm == Refused)
  }

  lemma MistakeFinal(s0: Slot, port: int, env: Env)
    requires Live(s0, port) && Addressing(s0, env) && MistakesLive(env)
    ensures var m := Final(port, env, Begin(s0));
            && (Live(m.slot, port) <==> RecoversFromMistake(s0, port, env))
            && (m.phase.exit == Released ==> Live(m.slot, port) && m.slot.containers[Candidate] == Container(env.ip, true, true))
  {
    OverFinal(s0, port, env, Begin(s0));
  }

  /** A Start that began live ends live exactly in those cases; it reports success only
      then, with the new container as the candidate. Unless it mistakes the live
      candidate, nothing stays staged after a success, and every failure before the old
      colour is retired leaves the old container in place. */
  lemma StartEndsLiveExactly(s0: Slot, port: int, env: Env)
    requires Live(s0, port) && Addressing(s0, env)
    ensures var m := Final(port, env, Begin(s0));
            Live(m.slot, port) <==> if MistakesLive(env) then RecoversFromMistake(s0, port, env) else EndsOnCandidate(s0, port, env)
    ensures var m := Final(port, env, Begin(s0));
            m.phase.exit == Released ==> Live(m.slot, port) && m.slot.containers[Candidate] == Container(env.ip, true, true)
    ensures var m := Final(port, env, Begin(s0));
            !MistakesLive(env) ==>
              && (m.phase.exit == Released ==> Next !in m.slot.containers)
              && (m.phase.exit !in {Released, PreviousCleanupFailed, CandidatePromoteFailed} ==>
                   Candidate in m.slot.containers && m.slot.containers[Candidate] == s0.containers[Candidate])
              && (m.phase.exit !in {PreviousCleanupFailed, CandidatePromoteFailed} && !Hazard(s0, port, env)
                  && !Live(m.slot, port) ==>
                   RoutedOn(m.slot, port, Next) && m.slot.containers[Next].proven)
  {
    if MistakesLive(env) {
      MistakeFinal(s0, port, env);
    } else {
      BeginInv(s0, port, env);
      InvFinal(s0, port, env, Begin(s0));
    }
  }

  // ---- What a crash can leave, wherever the route was ----

  /** The colours a Start beside a candidate never touches. */
  predicate KeepsColour(s0: Slot, s: Slot, c: Colour) {
    (c in s.containers <==> c in s0.containers) && (c in s.containers ==> s.containers[c] == s0.containers[c])
  }

  /** A candidate that passed its checks; or, between the removal of the old colour and
      the rename, the new colour still called next, checked and routed. */
  predicate CrashShape(s0: Slot, port: int, s: Slot) {
    && (if Candidate in s.containers then Checked(s, Candidate) else RoutedOn(s, port, Next) && Checked(s, Next))
    && KeepsColour(s0, s, Primary) && KeepsColour(s0, s, Previous)
  }

  /** The Start ends between the removal of the old colour and the rename. */
  predicate EndsInWindow(s: Slot, port: int, env: Env) {
    && SwitchTaken(s, port, env) && env.verify && Retires(env) && Took(env.retire)
    && !(env.retire == Done && Took(env.rename))
  }

  /** What is known in each phase of a Start beside a checked candidate, routed or not. */
  ghost predicate CheckedInv(s0: Slot, port: int, env: Env, m: Machine) {
    var s := m.slot;
    && Checked(s0, Candidate) && !MistakesLive(env) && CrashShape(s0, port, s)
    && (Rank(m.phase) <= 11 && !m.phase.Stopped? ==> env.network)
    && (Rank(m.phase) <= 10 && !m.phase.Stopped? ==>
         if env.seesCandidate then m.active == Candidate && m.staging == Next
         else m.staging == Candidate && (m.phase.Clean? || m.phase.Launch?))
    && (Rank(m.phase) <= 8 && !m.phase.Stopped? ==> env.run == Done && (Next in s0.containers ==> Took(env.clean)))
    && match m.phase
       case Network => m == Begin(s0)
       case Inspect => s == s0
       case Clean => s == s0
       case Launch => s == Remove(s0, m.staging, env.clean) && Candidate in s.containers
       case Health => Candidate in s.containers && Next in s.containers && s.containers[Next].running
       case Locate => Candidate in s.containers && Checked(s, Next) && env.healthy
       case Apply => Candidate in s.containers && Checked(s, Next) && ReachesApply(s0, port, env)
       case Verify => Candidate in s.containers && Checked(s, Next) && RoutedOn(s, port, Next) && SwitchTaken(s0, port, env)
       case Restore => Candidate in s.containers && Checked(s, Next) && SwitchTaken(s0, port, env) && !env.verify
       case Retire =>
         && Candidate in s.containers && Checked(s, Next) && RoutedOn(s, port, Next)
         && SwitchTaken(s0, port, env) && env.verify
       case Promote =>
         && Checked(s, Next) && RoutedOn(s, port, Next) && SwitchTaken(s0, port, env) && env.verify
         && (Candidate !in s.containers <==> Retires(env)) && (Retires(env) ==> env.retire == Done)
       case Discard(reason) =>
         && Candidate in s.containers
         && (match reason
             case HealthCheckFailed => !env.healthy
             case ProxySwitchFailed => env.apply != Done
             case ProxyValidationFailed => !env.verify
             case _ => false)
       case Stopped(exit) =>
         && (Candidate !in s.containers <==> EndsInWindow(s0, port, env))
         && (exit == Released ==> Live(s, port) && Next !in s.containers)
  }

  lemma CheckedStaging(s0: Slot, port: int, env: Env, m: Machine)
    requires CheckedInv(s0, port, env, m) && !m.phase.Stopped? && Rank(m.phase) >= 8
    ensures CheckedInv(s0, port, env, Step(port, env, m))
  {
  }

  lemma CheckedSwitching(s0: Slot, port: int, env: Env, m: Machine)
    requires CheckedInv(s0, port, env, m) && !m.phase.Stopped? && 4 <= Rank(m.phase) < 8
    ensures CheckedInv(s0, port, env, Step(port, env, m))
  {
  }

  lemma CheckedEnding(s0: Slot, port: int, env: Env, m: Machine)
    requires CheckedInv(s0, port, env, m) && !m.phase.Stopped? && Rank(m.phase) < 4
    ensures CheckedInv(s0, port, env, Step(port, env, m))
  {
  }

  lemma CheckedStep(s0: Slot, port: int, env: Env, m: Machine)
    requires CheckedInv(s0, port, env, m) && !m.phase.Stopped?
    ensures CheckedInv(s0, port, env, Step(port, env, m))
  {
    hide CheckedInv, Step;
    if Rank(m.phase) >= 8 {
      CheckedStaging(s0, port, env, m);
    } else if 4 <= Rank(m.phase) < 8 {
      CheckedSwitching(s0, port, env, m);
    } else {
      CheckedEnding(s0, port, env, m);
    }
  }

  lemma CheckedTrace(s0: Slot, port: int, env: Env, m: Machine)
    requires CheckedInv(s0, port, env, m)
    ensures forall s :: s in Trace(port, env, m) ==> CrashShape(s0, port, s)
    ensures CheckedInv(s0, port, env, Final(port, env, m))
    decreases Rank(m.phase)
  {
    hide CheckedInv, CrashShape;
    if !m.phase.Stopped? {
      var n := Step(port, env, m);
      CheckedStep(s0, port, env, m);
      CheckedTrace(s0, port, env, n);
      CheckedShape(s0, port, env, n);
    }
  }

  lemma CheckedShape(s0: Slot, port: int, env: Env, m: Machine)
    requires CheckedInv(s0, port, env, m)
    ensures CrashShape(s0, port, m.slot)
  {
  }

  /** Every state of a Start beside a checked candidate, wherever the route points and
      whatever else fails, has that shape. It ends without a candidate exactly when it
      ends in the window, and a reported success is live with nothing staged. */
  lemma CrashShapes(s0: Slot, port: int, env: Env)
    requires Checked(s0, Candidate) && !MistakesLive(env)
    ensures forall s :: s in [s0] + Trace(port, env, Begin(s0)) ==> CrashShape(s0, port, s)
    ensures var m := Final(port, env, Begin(s0));
            && CrashShape(s0, port, m.slot)
            && (Candidate !in m.slot.containers <==> EndsInWindow(s0, port, env))
            && (m.phase.exit == Released ==> Live(m.slot, port) && Next !in m.slot.containers)
  {
    CheckedTrace(s0, port, env, Begin(s0));
  }

  /** Addresses stay distinct, and the one reserved for the new container is unused
      until it runs. */
  predicate AddressInv(env: Env, m: Machine) {
    && OwnAddresses(m.slot)
    && (m.phase.Network? || m.phase.Inspect? || m.phase.Clean? || m.phase.Launch? ==>
         forall c :: c in m.slot.containers ==> m.slot.containers[c].ip != env.ip)
  }

  lemma AddressStaging(port: int, env: Env, m: Machine)
    requires !m.phase.Stopped? && AddressInv(env, m) && Rank(m.phase) >= 9
    ensures AddressInv(env, Step(port, env, m))
  {
  }

  lemma AddressSwitching(port: int, env: Env, m: Machine)
    requires !m.phase.Stopped? && AddressInv(env, m) && Rank(m.phase) < 9
    ensures AddressInv(env, Step(port, env, m))
  {
  }

  lemma AddressStep(port: int, env: Env, m: Machine)
    requires !m.phase.Stopped? && AddressInv(env, m)
    ensures AddressInv(env, Step(port, env, m))
  {
    hide AddressInv, Step;
    if Rank(m.phase) >= 9 {
      AddressStaging(port, env, m);
    } else {
      AddressSwitching(port, env, m);
    }
  }

  lemma AddressTrace(port: int, env: Env, m: Machine)
    requires AddressInv(env, m)
    ensures forall s :: s in Trace(port, env, m) ==> OwnAddresses(s)
    ensures OwnAddresses(Final(port, env, m).slot)
    decreases Rank(m.phase)
  {
    hide OwnAddresses;
    if !m.phase.Stopped? {
      AddressStep(port, env, m);
      AddressTrace(port, env, Step(port, env, m));
    }
  }
}
