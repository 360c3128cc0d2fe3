/** How a reconciliation pass ends, from any slot and for any outcomes of its calls, told
    in the terms of those alone: its verdict and everything it leaves. */
module PassOutcomes {
  import opened Options
  import opened Containers
  import opened BlueGreen
  import opened Reconcile

  /** The container a pass settles on: the first of candidate, primary and previous that
      is there and seen. */
  lemma SurvivorExactly(s: Slot, env: ReconEnv)
    ensures Survivor(s, env) == Some(Candidate) <==> Candidate in s.containers && env.seesCandidate
    ensures Survivor(s, env) == Some(Primary) <==>
              !(Candidate in s.containers && env.seesCandidate) && Primary in s.containers && env.seesPrimary
    ensures Survivor(s, env) == Some(Previous) <==>
              && !(Candidate in s.containers && env.seesCandidate) && !(Primary in s.containers && env.seesPrimary)
              && Previous in s.containers && env.seesPrevious
    ensures Survivor(s, env) != Some(Next)
  {
  }

  /** Nothing to do, without Docker or without a container. */
  lemma NothingToDoExactly(s: Slot, port: int, env: ReconEnv)
    ensures var o := ReconcileSlot(s, port, env);
            && (o.verdict == Unchanged <==> !env.docker || Survivor(s, env) == None)
            && (o.verdict == Unchanged ==> o.slot == s)
  {
  }

  /** A pass that settles on the candidate succeeds exactly if the candidate has an
      address, the route is applied, and a staging container it sees is removed. */
  lemma CandidatePass(s: Slot, port: int, env: ReconEnv)
    requires env.docker && Candidate in s.containers && env.seesCandidate
    ensures var o, r := ReconcileSlot(s, port, env), ReconcileSlot(s, port, env).slot;
            var reachable := s.containers[Candidate].running && env.address && 1 <= port <= 65535;
            var routed := reachable && env.apply == Done;
            && o.verdict == (if routed && (Next in s.containers && env.seesNext ==> env.rmNext == Done) then Rerouted else Failed)
            && r.route == (if reachable && env.apply != Refused then Some(Target(s.containers[Candidate].ip, port)) else s.route)
            && KeepsColour(s, r, Candidate) && KeepsColour(s, r, Primary) && KeepsColour(s, r, Previous)
            && (if routed && env.seesNext && env.rmNext != Refused then Next !in r.containers else KeepsColour(s, r, Next))
  {
  }

  /** The same for the primary; behind it a stale previous that is seen must go as well. */
  lemma PrimaryPass(s: Slot, port: int, env: ReconEnv)
    requires env.docker && !(Candidate in s.containers && env.seesCandidate) && Primary in s.containers && env.seesPrimary
    ensures var o, r := ReconcileSlot(s, port, env), ReconcileSlot(s, port, env).slot;
            var reachable := s.containers[Primary].running && env.address && 1 <= port <= 65535;
            var routed := reachable && env.apply == Done;
            var cleaned := routed && (Next in s.containers && env.seesNext ==> env.rmNext == Done);
            var stale := Previous in s.containers && env.seesPrevious && env.seesPreviousAgain;
            && o.verdict == (if cleaned && (stale ==> env.rmPrevious == Done) then Rerouted else Failed)
            && r.route == (if reachable && env.apply != Refused then Some(Target(s.containers[Primary].ip, port)) else s.route)
            && KeepsColour(s, r, Candidate) && KeepsColour(s, r, Primary)
            && (if routed && env.seesNext && env.rmNext != Refused then Next !in r.containers else KeepsColour(s, r, Next))
            && (if cleaned && stale && env.rmPrevious != Refused then Previous !in r.containers else KeepsColour(s, r, Previous))
  {
  }

  /** And for a preserved previous: it must start, become healthy and take the primary's
      name, which must be free, before it is routed. */
  lemma PreviousPass(s: Slot, port: int, env: ReconEnv)
    requires env.docker && Survivor(s, env) == Some(Previous)
    ensures var o, r := ReconcileSlot(s, port, env), ReconcileSlot(s, port, env).slot;
            var was := s.containers[Previous];
            var ip := if was.running || env.start == Refused then was.ip else env.startIp;
            var checked := env.start == Done && env.healthy;
            var box := Container(ip, was.running || env.start != Refused, was.proven || checked);
            var moved := checked && Primary !in s.containers && env.rename != Refused;
            var reachable := moved && env.rename == Done && env.address && 1 <= port <= 65535;
            && o.verdict == (if reachable && env.apply == Done then Restored else Failed)
            && r.route == (if reachable && env.apply != Refused then Some(Target(ip, port)) else s.route)
            && KeepsColour(s, r, Candidate) && KeepsColour(s, r, Next)
            && (if moved then Previous !in r.containers && Primary in r.containers && r.containers[Primary] == box
                else Previous in r.containers && r.containers[Previous] == box && KeepsColour(s, r, Primary))
  {
  }

  /** Over a list of applications that do not collide the pass succeeds exactly if no
      application's own pass fails. */
  lemma {:induction false} PassOkExactly(w: World, apps: seq<Application>, envs: seq<ReconEnv>)
    requires |envs| == |apps| && AllApart(apps)
    ensures ReconcileAll(w, apps, envs).ok
            <==> forall i :: 0 <= i < |apps| ==> ReconcileSlot(View(w, apps[i]), apps[i].port, envs[i]).verdict != Failed
    decreases apps
  {
    hide View, Put, ReconcileSlot, NamesOf;
    if apps != [] {
      var o := ReconcileSlot(View(w, apps[0]), apps[0].port, envs[0]);
      var v := Put(w, apps[0], o.slot);
      if o.verdict != Failed {
        RestApart(apps);
        PassOkExactly(v, apps[1..], envs[1..]);
        forall i | 1 <= i < |apps|
          ensures View(v, apps[i]) == View(w, apps[i])
          ensures apps[1..][i - 1] == apps[i] && envs[1..][i - 1] == envs[i]
        {
          assert Apart(apps[0], apps[i]);
          ViewOther(w, apps[0], o.slot, apps[i]);
        }
        ShiftedVerdicts(w, v, apps, envs);
      }
    }
  }

  lemma RestApart(apps: seq<Application>)
    requires AllApart(apps) && apps != []
    ensures AllApart(apps[1..])
  {
  }

  /** The verdicts of the rest of the list are those of the list from the second one on. */
  lemma ShiftedVerdicts(w: World, v: World, apps: seq<Application>, envs: seq<ReconEnv>)
    requires |envs| == |apps| > 0
    requires forall i :: 1 <= i < |apps| ==> View(v, apps[i]) == View(w, apps[i])
    requires forall i :: 1 <= i < |apps| ==> apps[1..][i - 1] == apps[i] && envs[1..][i - 1] == envs[i]
    ensures (forall j :: 0 <= j < |apps| - 1 ==> ReconcileSlot(View(v, apps[1..][j]), apps[1..][j].port, envs[1..][j]).verdict != Failed)
            <==> forall i :: 1 <= i < |apps| ==> ReconcileSlot(View(w, apps[i]), apps[i].port, envs[i]).verdict != Failed
  {
    hide View, ReconcileSlot;
    if forall j :: 0 <= j < |apps| - 1 ==> ReconcileSlot(View(v, apps[1..][j]), apps[1..][j].port, envs[1..][j]).verdict != Failed {
      forall i | 1 <= i < |apps|
        ensures ReconcileSlot(View(w, apps[i]), apps[i].port, envs[i]).verdict != Failed
      {
        var j := i - 1;
        assert ReconcileSlot(View(v, apps[1..][j]), apps[1..][j].port, envs[1..][j]).verdict != Failed;
      }
    }
    if forall i :: 1 <= i < |apps| ==> ReconcileSlot(View(w, apps[i]), apps[i].port, envs[i]).verdict != Failed {
      forall j | 0 <= j < |apps| - 1
        ensures ReconcileSlot(View(v, apps[1..][j]), apps[1..][j].port, envs[1..][j]).verdict != Failed
      {
        var i := j + 1;
        assert ReconcileSlot(View(w, apps[i]), apps[i].port, envs[i]).verdict != Failed;
      }
    }
  }

  /** The pass stops at the first failure: the applications up to it are where their own
      passes leave them, the ones after it are not touched. */
  lemma {:induction false} PassStopsAtFirst(w: World, apps: seq<Application>, envs: seq<ReconEnv>, k: nat, i: nat)
    requires |envs| == |apps| && k < |apps| && i < |apps| && AllApart(apps)
    requires forall j :: 0 <= j < k ==> ReconcileSlot(View(w, apps[j]), apps[j].port, envs[j]).verdict != Failed
    requires ReconcileSlot(View(w, apps[k]), apps[k].port, envs[k]).verdict == Failed
    ensures !ReconcileAll(w, apps, envs).ok
    ensures View(ReconcileAll(w, apps, envs).world, apps[i])
            == if i <= k then ReconcileSlot(View(w, apps[i]), apps[i].port, envs[i]).slot else View(w, apps[i])
    decreases apps
  {
    hide View, Put, ReconcileSlot, NamesOf;
    var o := ReconcileSlot(View(w, apps[0]), apps[0].port, envs[0]);
    var v := Put(w, apps[0], o.slot);
    var rest, restEnvs := apps[1..], envs[1..];
    forall j | 1 <= j < |apps|
      ensures View(v, apps[j]) == View(w, apps[j]) && rest[j - 1] == apps[j] && restEnvs[j - 1] == envs[j]
    {
      assert Apart(apps[0], apps[j]);
      ViewOther(w, apps[0], o.slot, apps[j]);
    }
    ViewPut(w, apps[0], o.slot);
    if k > 0 {
      assert o.verdict != Failed;
      RestApart(apps);
      forall j | 0 <= j < k - 1
        ensures ReconcileSlot(View(v, rest[j]), rest[j].port, restEnvs[j]).verdict != Failed
      {
        assert ReconcileSlot(View(w, apps[j + 1]), apps[j + 1].port, envs[j + 1]).verdict != Failed;
      }
      if i > 0 {
        PassStopsAtFirst(v, rest, restEnvs, k - 1, i - 1);
      } else {
        PassStopsAtFirst(v, rest, restEnvs, k - 1, k - 1);
        forall a | a in rest
          ensures Apart(a, apps[0])
        {
          var j :| 0 <= j < |rest| && rest[j] == a;
          assert Apart(apps[0], apps[j + 1]);
        }
        PassTouchesOnlyListed(v, rest, restEnvs, apps[0]);
      }
    }
  }
}
