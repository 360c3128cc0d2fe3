/** How a Start ends, from any slot and for any outcomes of its calls, told in the terms of
    those alone: which error or success it reports, and what it leaves. */
module Exits {
  import opened Options
  import opened Containers
  import opened BlueGreen

  /** Beside a candidate it sees, a Start stages under next; else as the candidate. */
  function StagingOf(s: Slot, env: Env): Colour {
    if Candidate in s.containers && env.seesCandidate then Next else Candidate
  }

  function ActiveOf(s: Slot, env: Env): Colour {
    if Candidate in s.containers && env.seesCandidate then Candidate else Primary
  }

  predicate OthersKept(s0: Slot, s: Slot, c: Colour) {
    && (c == Primary || KeepsColour(s0, s, Primary)) && (c == Candidate || KeepsColour(s0, s, Candidate))
    && (c == Next || KeepsColour(s0, s, Next)) && (c == Previous || KeepsColour(s0, s, Previous))
  }

  /** The staged container is there exactly if `there`, and then it is `x`. */
  predicate Left(s: Slot, c: Colour, there: bool, x: Container) {
    (c in s.containers <==> there) && (there ==> s.containers[c] == x)
  }

  /** The report and the slot, exit by exit. */
  ghost predicate Ends(s0: Slot, port: int, env: Env, exit: Exit, s: Slot) {
    var st, ac := StagingOf(s0, env), ActiveOf(s0, env);
    var free := st !in s0.containers || env.clean != Refused;
    var started := env.network && free && env.run == Done;
    var ready := started && env.healthy && env.address && 1 <= port <= 65535;
    var switched := ready && env.apply == Done;
    var retiring := ac in s0.containers && env.seesActive && env.seesActiveAgain;
    var to := Some(Target(env.ip, port));
    var checked := Container(env.ip, true, true);
    match exit
    case NetworkUnavailable => !env.network && s == s0
    case CandidateStartFailed =>
      && env.network && !(free && env.run == Done) && s.route == s0.route && OthersKept(s0, s, st)
      && (free ==> Left(s, st, env.run == Lost, Container(env.ip, env.lostRuns, false)))
      && (!free ==> KeepsColour(s0, s, st))
    case HealthCheckFailed =>
      && started && !env.healthy && s.route == s0.route && OthersKept(s0, s, st)
      && Left(s, st, env.unhealthyRm == Refused, Container(env.ip, true, false))
    case CandidateAddressUnavailable =>
      && started && env.healthy && !(env.address && 1 <= port <= 65535)
      && s.route == s0.route && OthersKept(s0, s, st) && Left(s, st, true, checked)
    case ProxySwitchFailed =>
      && ready && env.apply != Done && OthersKept(s0, s, st) && Left(s, st, env.applyRm == Refused, checked)
      && s.route == if env.apply == Lost then to else s0.route
    case ProxyValidationFailed =>
      && switched && !env.verify && OthersKept(s0, s, st) && Left(s, st, env.verifyRm == Refused, checked)
      && s.route == if ac in s0.containers && s0.containers[ac].running && env.seesActive && env.activeAddress && env.restore != Refused
                    then Some(Target(s0.containers[ac].ip, port)) else to
    case PreviousCleanupFailed =>
      && switched && env.verify && retiring && env.retire != Done && s.route == to && Left(s, st, true, checked)
      && (if env.retire == Refused then KeepsColour(s0, s, ac) else ac !in s.containers)
      && KeepsColour(s0, s, Previous) && KeepsColour(s0, s, if st == Next then Primary else Next)
    case CandidatePromoteFailed =>
      && switched && env.verify && st == Next && (retiring ==> env.retire == Done) && !(retiring && env.rename == Done)
      && s.route == to && KeepsColour(s0, s, Primary) && KeepsColour(s0, s, Previous)
      && if retiring && env.rename == Lost then Next !in s.containers && Left(s, Candidate, true, checked)
         else Left(s, Next, true, checked) && (if retiring then Candidate !in s.containers else KeepsColour(s0, s, Candidate))
    case Released =>
      && switched && env.verify && (retiring ==> env.retire == Done)
      && s.route == to && Left(s, Candidate, true, checked) && KeepsColour(s0, s, Previous)
      && if st == Next then retiring && env.rename == Done && Next !in s.containers && KeepsColour(s0, s, Primary)
         else KeepsColour(s0, s, Next) && (if retiring then Primary !in s.containers else KeepsColour(s0, s, Primary))
  }

  /** What is known in each phase. */
  ghost predicate ExitInv(s0: Slot, port: int, env: Env, m: Machine) {
    var s, st, ac := m.slot, StagingOf(s0, env), ActiveOf(s0, env);
    var started := env.network && (st !in s0.containers || env.clean != Refused) && env.run == Done;
    var ready := started && env.healthy && env.address && 1 <= port <= 65535;
    var retiring := ac in s0.containers && env.seesActive && env.seesActiveAgain;
    var to := Some(Target(env.ip, port));
    var checked := Container(env.ip, true, true);
    && (Rank(m.phase) <= 10 && !m.phase.Stopped? ==> m.active == ac && m.staging == st)
    && match m.phase
       case Network => m == Begin(s0)
       case Inspect => s == s0 && env.network
       case Clean => s == s0 && env.network
       case Launch =>
         && env.network && s.route == s0.route && OthersKept(s0, s, st)
         && (if st in s0.containers && env.clean == Refused then KeepsColour(s0, s, st) else st !in s.containers)
       case Health => started && s.route == s0.route && OthersKept(s0, s, st) && Left(s, st, true, Container(env.ip, true, false))
       case Locate => started && env.healthy && s.route == s0.route && OthersKept(s0, s, st) && Left(s, st, true, checked)
       case Apply => ready && s.route == s0.route && OthersKept(s0, s, st) && Left(s, st, true, checked)
       case Verify => ready && env.apply == Done && s.route == to && OthersKept(s0, s, st) && Left(s, st, true, checked)
       case Restore => ready && env.apply == Done && !env.verify && s.route == to && OthersKept(s0, s, st) && Left(s, st, true, checked)
       case Retire => ready && env.apply == Done && env.verify && s.route == to && OthersKept(s0, s, st) && Left(s, st, true, checked)
       case Promote =>
         && ready && env.apply == Done && env.verify && s.route == to && st == Next && Left(s, Next, true, checked)
         && KeepsColour(s0, s, Primary) && KeepsColour(s0, s, Previous)
         && (retiring ==> env.retire == Done)
         && (if retiring then Candidate !in s.containers else KeepsColour(s0, s, Candidate))
       case Discard(reason) =>
         && OthersKept(s0, s, st)
         && (match reason
             case HealthCheckFailed => started && !env.healthy && s.route == s0.route && Left(s, st, true, Container(env.ip, true, false))
             case ProxySwitchFailed =>
               ready && env.apply != Done && Left(s, st, true, checked) && s.route == if env.apply == Lost then to else s0.route
             case ProxyValidationFailed =>
               && ready && env.apply == Done && !env.verify && Left(s, st, true, checked)
               && s.route == if ac in s0.containers && s0.containers[ac].running && env.seesActive && env.activeAddress && env.restore != Refused
                             then Some(Target(s0.containers[ac].ip, port)) else to
             case _ => false)
       case Stopped(exit) => Ends(s0, port, env, exit, s)
  }

  lemma ExitPreparing(s0: Slot, port: int, env: Env, m: Machine)
    requires ExitInv(s0, port, env, m) && Rank(m.phase) >= 10
    ensures ExitInv(s0, port, env, Step(port, env, m))
  {
  }

  lemma ExitLaunching(s0: Slot, port: int, env: Env, m: Machine)
    requires ExitInv(s0, port, env, m) && Rank(m.phase) == 9
    ensures ExitInv(s0, port, env, Step(port, env, m))
  {
  }

  lemma ExitChecking(s0: Slot, port: int, env: Env, m: Machine)
    requires ExitInv(s0, port, env, m) && Rank(m.phase) == 8
    ensures ExitInv(s0, port, env, Step(port, env, m))
  {
  }

  lemma ExitSwitching(s0: Slot, port: int, env: Env, m: Machine)
    requires ExitInv(s0, port, env, m) && 4 <= Rank(m.phase) < 8
    ensures ExitInv(s0, port, env, Step(port, env, m))
  {
  }

  lemma ExitRetiring(s0: Slot, port: int, env: Env, m: Machine)
    requires ExitInv(s0, port, env, m) && Rank(m.phase) == 3
    ensures ExitInv(s0, port, env, Step(port, env, m))
  {
  }

  lemma ExitEnding(s0: Slot, port: int, env: Env, m: Machine)
    requires ExitInv(s0, port, env, m) && !m.phase.Stopped? && Rank(m.phase) < 3
    ensures ExitInv(s0, port, env, Step(port, env, m))
  {
  }

  lemma ExitFinal(s0: Slot, port: int, env: Env, m: Machine)
    requires ExitInv(s0, port, env, m)
    ensures ExitInv(s0, port, env, Final(port, env, m))
    decreases Rank(m.phase)
  {
    hide ExitInv, Step;
    if !m.phase.Stopped? {
      if Rank(m.phase) >= 10 {
        ExitPreparing(s0, port, env, m);
      } else if Rank(m.phase) == 9 {
        ExitLaunching(s0, port, env, m);
      } else if Rank(m.phase) == 8 {
        ExitChecking(s0, port, env, m);
      } else if Rank(m.phase) >= 4 {
        ExitSwitching(s0, port, env, m);
      } else if Rank(m.phase) == 3 {
        ExitRetiring(s0, port, env, m);
      } else {
        ExitEnding(s0, port, env, m);
      }
      ExitFinal(s0, port, env, Step(port, env, m));
    }
  }

  /** A Start ends as told. */
  lemma StartEnds(s: Slot, port: int, env: Env)
    ensures var m := Final(port, env, Begin(s)); Ends(s, port, env, m.phase.exit, m.slot)
  {
    ExitFinal(s, port, env, Begin(s));
  }

  lemma SlotsEqual(s: Slot, t: Slot)
    requires s.route == t.route && KeepsColour(s, t, Primary) && KeepsColour(s, t, Candidate)
    requires KeepsColour(s, t, Next) && KeepsColour(s, t, Previous)
    ensures s == t
  {
    forall c: Colour
      ensures (c in s.containers <==> c in t.containers) && (c in s.containers ==> s.containers[c] == t.containers[c])
    {
      match c case Primary => case Candidate => case Next => case Previous =>
    }
    assert s.containers == t.containers;
  }

  /** And in no other way: slot and outcomes admit one report and one final slot only. */
  lemma EndsOneWay(s0: Slot, port: int, env: Env, exit: Exit, s: Slot, other: Exit, t: Slot)
    requires Ends(s0, port, env, exit, s) && Ends(s0, port, env, other, t)
    ensures exit == other && s == t
  {
    SlotsEqual(s, t);
  }

  /** A Start reports success exactly when every call it needs succeeds. Without a
      candidate an old primary that is seen must go; beside a candidate it must be seen
      twice, removed, and the new container renamed. */
  lemma ReleasedExactly(s: Slot, port: int, env: Env)
    ensures Candidate !in s.containers || !env.seesCandidate ==>
              (Final(port, env, Begin(s)).phase.exit == Released <==>
                 && env.network && (Candidate in s.containers ==> env.clean != Refused)
                 && env.run == Done && env.healthy && env.address && 1 <= port <= 65535
                 && env.apply == Done && env.verify
                 && !(Primary in s.containers && env.seesActive && env.seesActiveAgain && env.retire != Done))
    ensures Candidate in s.containers && env.seesCandidate ==>
              (Final(port, env, Begin(s)).phase.exit == Released <==>
                 && env.network && (Next in s.containers ==> env.clean != Refused)
                 && env.run == Done && env.healthy && env.address && 1 <= port <= 65535
                 && env.apply == Done && env.verify
                 && env.seesActive && env.seesActiveAgain && env.retire == Done && env.rename == Done)
  {
    StartEnds(s, port, env);
  }
}
