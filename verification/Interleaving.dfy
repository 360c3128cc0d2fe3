/** Several workers: Starts of different applications whose external calls interleave in
    any order on the one container namespace and the one set of routes. */
module Interleaving {
  import opened Containers
  import opened BlueGreen
  import opened Reconcile

  /** What one worker is about: an application and how its calls will end. */
  datatype Work = Work(app: Application, env: Env)

  datatype System = System(world: World, machines: seq<Machine>)

  predicate AllApartWork(works: seq<Work>) {
    forall i, j :: 0 <= i < j < |works| ==> Apart(works[i].app, works[j].app)
  }

  function Initial(w: World, works: seq<Work>): (y: System)
    ensures |y.machines| == |works|
  {
    System(w, seq(|works|, i requires 0 <= i < |works| => Begin(View(w, works[i].app))))
  }

  /** Worker `i` makes its next call on whatever the world is by now. */
  function Turn(works: seq<Work>, y: System, i: nat): (z: System)
    requires i < |works| == |y.machines|
    ensures |z.machines| == |works|
  {
    var m := y.machines[i];
    if m.phase.Stopped? then y else
    var n := Step(works[i].app.port, works[i].env, m.(slot := View(y.world, works[i].app)));
    System(Put(y.world, works[i].app, n.slot), y.machines[i := n])
  }

  function Run(works: seq<Work>, y: System, schedule: seq<nat>): (z: System)
    requires |y.machines| == |works| && forall k :: 0 <= k < |schedule| ==> schedule[k] < |works|
    ensures |z.machines| == |works|
    decreases schedule
  {
    if schedule == [] then y else Run(works, Turn(works, y, schedule[0]), schedule[1..])
  }

  /** The same worker with the host to itself, after `k` calls. */
  function Alone(port: int, env: Env, m: Machine, k: nat): Machine
    decreases k
  {
    if k == 0 || m.phase.Stopped? then m else Alone(port, env, Step(port, env, m), k - 1)
  }

  function Count(schedule: seq<nat>, i: nat): nat {
    if schedule == [] then 0 else (if schedule[0] == i then 1 else 0) + Count(schedule[1..], i)
  }

  /** Every machine agrees with what its application sees of the world. */
  predicate InStep(works: seq<Work>, y: System) {
    && |y.machines| == |works|
    && forall i :: 0 <= i < |works| ==> View(y.world, works[i].app) == y.machines[i].slot
  }

  lemma InitialInStep(w: World, works: seq<Work>)
    ensures InStep(works, Initial(w, works))
  {
  }

  lemma ApartAnyOrder(works: seq<Work>, i: nat, j: nat)
    requires AllApartWork(works) && i < |works| && j < |works| && i != j
    ensures Apart(works[i].app, works[j].app)
  {
    if i > j {
      assert Apart(works[j].app, works[i].app);
    }
  }

  /** A turn is the worker's own step, and nobody else's view changes. */
  lemma TurnKeepsInStep(works: seq<Work>, y: System, i: nat)
    requires AllApartWork(works) && InStep(works, y) && i < |works|
    ensures InStep(works, Turn(works, y, i))
    ensures var m := y.machines[i];
            Turn(works, y, i).machines
            == y.machines[i := if m.phase.Stopped? then m else Step(works[i].app.port, works[i].env, m)]
  {
    hide View, Put, Step, AllApartWork, NamesOf;
    var m := y.machines[i];
    assert View(y.world, works[i].app) == m.slot;
    assert m.(slot := m.slot) == m;
    if m.phase.Stopped? {
      assert y.machines[i := m] == y.machines;
    } else {
      var n := Step(works[i].app.port, works[i].env, m);
      var z := Turn(works, y, i);
      assert z.world == Put(y.world, works[i].app, n.slot);
      forall j | 0 <= j < |works|
        ensures View(z.world, works[j].app) == z.machines[j].slot
      {
        if j == i {
          ViewPut(y.world, works[i].app, n.slot);
        } else {
          ApartAnyOrder(works, i, j);
          ViewOther(y.world, works[i].app, n.slot, works[j].app);
        }
      }
    }
  }

  /** However the calls interleave, after any part of a schedule every application is
      exactly where its own worker alone would have brought it with as many calls. */
  lemma {:induction false} RunIsAlone(works: seq<Work>, y: System, schedule: seq<nat>, i: nat)
    requires AllApartWork(works) && |y.machines| == |works| && InStep(works, y) && i < |works|
    requires forall k :: 0 <= k < |schedule| ==> schedule[k] < |works|
    ensures var z := Run(works, y, schedule);
            && InStep(works, z)
            && z.machines[i] == Alone(works[i].app.port, works[i].env, y.machines[i], Count(schedule, i))
    decreases schedule
  {
    hide Step, View, AllApartWork, Turn, InStep;
    if schedule != [] {
      var j := schedule[0];
      assert forall k :: 0 <= k < |schedule[1..]| ==> schedule[1..][k] == schedule[k + 1];
      TurnKeepsInStep(works, y, j);
      RunIsAlone(works, Turn(works, y, j), schedule[1..], i);
    }
  }

  // ---- What single-worker results say about the interleaving ----

  lemma {:induction false} AloneOnTrace(port: int, env: Env, m: Machine, k: nat)
    ensures Alone(port, env, m, k).slot in [m.slot] + Trace(port, env, m)
    decreases k
  {
    if k > 0 && !m.phase.Stopped? {
      var n := Step(port, env, m);
      assert Trace(port, env, m) == [n.slot] + Trace(port, env, n);
      AloneOnTrace(port, env, n, k - 1);
    }
  }

  lemma {:induction false} AloneEnds(port: int, env: Env, m: Machine, k: nat)
    requires Rank(m.phase) <= k
    ensures Alone(port, env, m, k) == Final(port, env, m)
    decreases k
  {
    if !m.phase.Stopped? {
      AloneEnds(port, env, Step(port, env, m), k - 1);
    }
  }

  /** At every moment of any interleaving each application is in a state of its own
      sequential Start, and after twelve turns it is where that Start ends. */
  lemma InterleavingOnTrace(works: seq<Work>, w: World, schedule: seq<nat>, i: nat)
    requires AllApartWork(works) && i < |works|
    requires forall k :: 0 <= k < |schedule| ==> schedule[k] < |works|
    ensures var m0 := Begin(View(w, works[i].app));
            var z := Run(works, Initial(w, works), schedule);
            && View(z.world, works[i].app) in [m0.slot] + Trace(works[i].app.port, works[i].env, m0)
            && (Count(schedule, i) >= 12 ==>
                 && z.machines[i] == Final(works[i].app.port, works[i].env, m0)
                 && View(z.world, works[i].app) == Final(works[i].app.port, works[i].env, m0).slot)
  {
    hide View, AllApartWork, Trace, Step;
    var m0 := Begin(View(w, works[i].app));
    InitialInStep(w, works);
    RunIsAlone(works, Initial(w, works), schedule, i);
    AloneOnTrace(works[i].app.port, works[i].env, m0, Count(schedule, i));
    if Count(schedule, i) >= 12 {
      AloneEnds(works[i].app.port, works[i].env, m0, Count(schedule, i));
    }
  }

  /** All applications stay served at every moment while none of them meets a hazard. */
  lemma AllStayServed(works: seq<Work>, w: World, schedule: seq<nat>, i: nat)
    requires AllApartWork(works) && i < |works|
    requires forall k :: 0 <= k < |schedule| ==> schedule[k] < |works|
    requires var s := View(w, works[i].app);
             Live(s, works[i].app.port) && Addressing(s, works[i].env) && !Hazard(s, works[i].app.port, works[i].env)
    ensures Served(View(Run(works, Initial(w, works), schedule).world, works[i].app), works[i].app.port)
  {
    var s, port, env := View(w, works[i].app), works[i].app.port, works[i].env;
    hide View, Trace, AllApartWork, Run, Hazard;
    InterleavingOnTrace(works, w, schedule, i);
    RouteAlwaysServedExactly(s, port, env);
    assert Served(s, port) by { assert RoutedOn(s, port, Candidate); }
    var v := View(Run(works, Initial(w, works), schedule).world, works[i].app);
    var t := Trace(port, env, Begin(s));
    if v in t {
      var k :| 0 <= k < |t| && t[k] == v;
    }
  }

  // ---- The world as a whole ----

  /** Every application's slot written into `w`, in the order of the list. */
  function PutAll(w: World, works: seq<Work>, slots: seq<Slot>): World
    requires |slots| == |works|
    decreases works
  {
    if works == [] then w else
    var n := |works| - 1;
    Put(PutAll(w, works[..n], slots[..n]), works[n].app, slots[n])
  }

  lemma WorldsEqual(v: World, w: World)
    requires forall n :: n in v.containers <==> n in w.containers
    requires forall n :: n in v.containers && n in w.containers ==> v.containers[n] == w.containers[n]
    requires v.routes == w.routes
    ensures v == w
  {
    assert v.containers == w.containers;
  }

  /** Writes of applications that do not collide commute. */
  lemma PutsCommute(w: World, a: Application, s: Slot, b: Application, t: Slot)
    requires Apart(a, b)
    ensures Put(Put(w, a, s), b, t) == Put(Put(w, b, t), a, s)
  {
    var v, u := Put(Put(w, a, s), b, t), Put(Put(w, b, t), a, s);
    RoutesCommute(w, a, s, b, t);
    forall n
      ensures (n in v.containers <==> n in u.containers) && (n in v.containers ==> v.containers[n] == u.containers[n])
    {
      NameCommutes(w, a, s, b, t, n);
    }
    hide Put;
    WorldsEqual(v, u);
  }

  lemma RoutesCommute(w: World, a: Application, s: Slot, b: Application, t: Slot)
    requires a.id != b.id
    ensures Put(Put(w, a, s), b, t).routes == Put(Put(w, b, t), a, s).routes
  {
    hide Write;
  }

  lemma NameCommutes(w: World, a: Application, s: Slot, b: Application, t: Slot, n: string)
    requires NamesOf(a.name) !! NamesOf(b.name)
    ensures var v, u := Put(Put(w, a, s), b, t).containers, Put(Put(w, b, t), a, s).containers;
            (n in v <==> n in u) && (n in v ==> v[n] == u[n])
  {
    hide Put, ContainerName;
    if n in NamesOf(a.name) {
      var c :| n == ContainerName(a.name, c);
      PutElsewhere(Put(w, a, s), b, t, n);
      PutOwn(w, a, s, c);
      PutOwn(Put(w, b, t), a, s, c);
    } else if n in NamesOf(b.name) {
      var c :| n == ContainerName(b.name, c);
      PutOwn(Put(w, a, s), b, t, c);
      PutElsewhere(Put(w, b, t), a, s, n);
      PutOwn(w, b, t, c);
    } else {
      PutElsewhere(Put(w, a, s), b, t, n);
      PutElsewhere(w, a, s, n);
      PutElsewhere(Put(w, b, t), a, s, n);
      PutElsewhere(w, b, t, n);
    }
  }

  /** One more write of a listed application replaces its slot. */
  lemma {:induction false} PutIntoAll(w: World, works: seq<Work>, slots: seq<Slot>, i: nat, s: Slot)
    requires |slots| == |works| && i < |works| && AllApartWork(works)
    ensures Put(PutAll(w, works, slots), works[i].app, s) == PutAll(w, works, slots[i := s])
    decreases works
  {
    hide Put, NamesOf;
    var n := |works| - 1;
    var before := PutAll(w, works[..n], slots[..n]);
    if i == n {
      assert slots[i := s][..n] == slots[..n];
      PutPut(before, works[n].app, slots[n], s);
    } else {
      assert slots[i := s][..n] == slots[..n][i := s];
      assert Apart(works[i].app, works[n].app);
      PutsCommute(before, works[n].app, slots[n], works[i].app, s);
      PutIntoAll(w, works[..n], slots[..n], i, s);
    }
  }

  lemma {:induction false} PutAllViews(w: World, works: seq<Work>, slots: seq<Slot>)
    requires |slots| == |works| && forall i :: 0 <= i < |works| ==> slots[i] == View(w, works[i].app)
    ensures PutAll(w, works, slots) == w
    decreases works
  {
    hide Put, View;
    if works != [] {
      var n := |works| - 1;
      PutAllViews(w, works[..n], slots[..n]);
      PutView(w, works[n].app);
    }
  }

  function Slots(ms: seq<Machine>): (s: seq<Slot>)
    ensures |s| == |ms|
  {
    seq(|ms|, i requires 0 <= i < |ms| => ms[i].slot)
  }

  lemma {:induction false} RunWorld(works: seq<Work>, w: World, y: System, schedule: seq<nat>)
    requires AllApartWork(works) && |y.machines| == |works| && InStep(works, y) && y.world == PutAll(w, works, Slots(y.machines))
    requires forall k :: 0 <= k < |schedule| ==> schedule[k] < |works|
    ensures var z := Run(works, y, schedule); z.world == PutAll(w, works, Slots(z.machines))
    decreases schedule
  {
    hide Step, View, Put, PutAll, AllApartWork, InStep;
    if schedule != [] {
      var i := schedule[0];
      var z := Turn(works, y, i);
      assert forall k :: 0 <= k < |schedule[1..]| ==> schedule[1..][k] == schedule[k + 1];
      TurnKeepsInStep(works, y, i);
      if !y.machines[i].phase.Stopped? {
        PutIntoAll(w, works, Slots(y.machines), i, z.machines[i].slot);
        assert Slots(z.machines) == Slots(y.machines)[i := z.machines[i].slot];
      }
      RunWorld(works, w, z, schedule[1..]);
    }
  }

  /** The whole host after any interleaving is the initial one with every listed
      application's slot replaced by that of its own sequential Start after as many
      calls: two schedules that give each worker the same number of turns end in the
      same world, and nothing else on the host is touched. */
  lemma InterleavingIsSequential(works: seq<Work>, w: World, schedule: seq<nat>)
    requires AllApartWork(works)
    requires forall k :: 0 <= k < |schedule| ==> schedule[k] < |works|
    ensures Run(works, Initial(w, works), schedule).world
            == PutAll(w, works, seq(|works|, i requires 0 <= i < |works| =>
                 Alone(works[i].app.port, works[i].env, Begin(View(w, works[i].app)), Count(schedule, i)).slot))
  {
    hide Step, View, Put, PutAll, AllApartWork, Run;
    var y := Initial(w, works);
    InitialInStep(w, works);
    PutAllViews(w, works, Slots(y.machines));
    RunWorld(works, w, y, schedule);
    var z := Run(works, y, schedule);
    var slots := seq(|works|, i requires 0 <= i < |works| =>
      Alone(works[i].app.port, works[i].env, Begin(View(w, works[i].app)), Count(schedule, i)).slot);
    forall i | 0 <= i < |works|
      ensures Slots(z.machines)[i] == slots[i]
    {
      RunIsAlone(works, y, schedule, i);
    }
    assert Slots(z.machines) == slots;
  }
}
