/** Docker's flat container namespace and Caddy's routes, and the part of both that
    belongs to one application: four container names and one route. */
module Containers {
  import opened Options

  /** The four names a release of one application may hold. */
  datatype Colour = Primary | Candidate | Next | Previous

  function Suffix(c: Colour): string {
    match c
    case Primary => ""
    case Candidate => "-candidate"
    case Next => "-next"
    case Previous => "-previous"
  }

  function ContainerName(app: string, c: Colour): string {
    "minidock-" + app + Suffix(c)
  }

  /** `proven` records that waitHealthy has accepted this very container. */
  datatype Container = Container(ip: nat, running: bool, proven: bool)

  datatype Target = Target(ip: nat, port: int)

  datatype Application = Application(id: int, name: string, port: int)

  datatype World = World(containers: map<string, Container>, routes: map<int, Target>)

  /** What one application owns of a world. */
  datatype Slot = Slot(containers: map<Colour, Container>, route: Option<Target>)

  predicate ValidPort(port: int) {
    1 <= port <= 65535
  }

  /** The route of the slot dials the container of colour `c`. */
  predicate RoutedOn(s: Slot, port: int, c: Colour) {
    c in s.containers && s.route == Some(Target(s.containers[c].ip, port))
  }

  /** A running container that passed its health check. */
  predicate Checked(s: Slot, c: Colour) {
    c in s.containers && s.containers[c].running && s.containers[c].proven
  }

  /** The route dials such a container. */
  predicate Served(s: Slot, port: int) {
    exists c :: RoutedOn(s, port, c) && Checked(s, c)
  }

  /** The normal shape after the first switch: the candidate serves. */
  predicate Live(s: Slot, port: int) {
    RoutedOn(s, port, Candidate) && Checked(s, Candidate)
  }

  /** Docker gives every container its own address. */
  predicate OwnAddresses(s: Slot) {
    forall c, d :: c in s.containers && d in s.containers && c != d ==> s.containers[c].ip != s.containers[d].ip
  }

  // ---- One application's view of the world, and writing it back ----

  function View(w: World, app: Application): Slot {
    Slot(map c: Colour | ContainerName(app.name, c) in w.containers :: w.containers[ContainerName(app.name, c)],
         if app.id in w.routes then Some(w.routes[app.id]) else None)
  }

  function NamesOf(app: string): set<string> {
    {ContainerName(app, Primary), ContainerName(app, Candidate), ContainerName(app, Next), ContainerName(app, Previous)}
  }

  function Write(m: map<string, Container>, app: string, s: Slot, c: Colour): map<string, Container> {
    if c in s.containers then m[ContainerName(app, c) := s.containers[c]] else m - {ContainerName(app, c)}
  }

  function Put(w: World, app: Application, s: Slot): World {
    var m1 := Write(w.containers, app.name, s, Primary);
    var m2 := Write(m1, app.name, s, Candidate);
    var m3 := Write(m2, app.name, s, Next);
    var m4 := Write(m3, app.name, s, Previous);
    World(m4, match s.route case Some(t) => w.routes[app.id := t] case None => w.routes - {app.id})
  }

  // ---- Names ----

  lemma NamesExactly(app: string)
    ensures ContainerName(app, Primary) == "minidock-" + app
    ensures ContainerName(app, Candidate) == "minidock-" + app + "-candidate"
    ensures ContainerName(app, Next) == "minidock-" + app + "-next"
    ensures ContainerName(app, Previous) == "minidock-" + app + "-previous"
  {
    assert "minidock-" + app + "" == "minidock-" + app;
  }

  lemma ColoursDistinct(app: string, c: Colour, d: Colour)
    ensures ContainerName(app, c) == ContainerName(app, d) ==> c == d
  {
    assert |ContainerName(app, c)| == 9 + |app| + |Suffix(c)|;
    assert |ContainerName(app, d)| == 9 + |app| + |Suffix(d)|;
  }

  /** `a` is `b` followed by a colour suffix, or `b` itself. */
  predicate Extends(a: string, b: string) {
    exists c :: a == b + Suffix(c)
  }

  lemma CancelPrefix(p: string, a: string, b: string)
    requires p + a == p + b
    ensures a == b
  {
    assert a == (p + a)[|p|..];
    assert b == (p + b)[|p|..];
  }

  lemma CancelSuffix(a: string, b: string, q: string)
    requires a + q == b + q
    ensures a == b
  {
    assert a == (a + q)[..|a + q| - |q|];
    assert b == (b + q)[..|b + q| - |q|];
  }

  lemma LastOf(a: string, q: string)
    requires |q| > 0
    ensures (a + q)[|a + q| - 1] == q[|q| - 1]
  {
  }

  lemma SuffixesExtend(a: string, b: string, c: Colour, d: Colour)
    requires a + Suffix(c) == b + Suffix(d)
    ensures Extends(a, b) || Extends(b, a)
  {
    assert a + "" == a && b + "" == b;
    if c == d {
      CancelSuffix(a, b, Suffix(c));
      assert a == b + Suffix(Primary);
    } else if c == Primary {
      assert a == b + Suffix(d);
    } else if d == Primary {
      assert b == a + Suffix(c);
    } else {
      LastOf(a, Suffix(c));
      LastOf(b, Suffix(d));
      assert false;
    }
  }

  lemma SameNameExtends(a: string, b: string, c: Colour, d: Colour)
    requires ContainerName(a, c) == ContainerName(b, d)
    ensures Extends(a, b) || Extends(b, a)
  {
    hide Suffix, Extends;
    assert ContainerName(a, c) == "minidock-" + (a + Suffix(c));
    assert ContainerName(b, d) == "minidock-" + (b + Suffix(d));
    CancelPrefix("minidock-", a + Suffix(c), b + Suffix(d));
    SuffixesExtend(a, b, c, d);
  }

  lemma ExtensionCollides(a: string, b: string)
    requires Extends(a, b)
    ensures exists n :: n in NamesOf(a) && n in NamesOf(b)
  {
    var c :| a == b + Suffix(c);
    assert ContainerName(a, Primary) == ContainerName(b, c) by {
      assert a + "" == a;
      assert "minidock-" + b + Suffix(c) == "minidock-" + (b + Suffix(c));
    }
    hide ContainerName, Suffix;
    assert ContainerName(a, Primary) in NamesOf(a) && ContainerName(b, c) in NamesOf(b);
  }

  /** Two applications share a container name exactly when one name is the other,
      or the other followed by a colour suffix. */
  lemma NamesCollideExactly(a: string, b: string)
    ensures NamesOf(a) !! NamesOf(b) <==> !Extends(a, b) && !Extends(b, a)
  {
    hide ContainerName, Suffix, Extends;
    if n :| n in NamesOf(a) && n in NamesOf(b) {
      var c :| n == ContainerName(a, c);
      var d :| n == ContainerName(b, d);
      SameNameExtends(a, b, c, d);
    }
    if Extends(a, b) {
      ExtensionCollides(a, b);
    }
    if Extends(b, a) {
      ExtensionCollides(b, a);
    }
  }

  // ---- The view is a lens ----

  lemma NamesApart(app: string)
    ensures forall c, d :: c != d ==> ContainerName(app, c) != ContainerName(app, d)
  {
    forall c, d | c != d
      ensures ContainerName(app, c) != ContainerName(app, d)
    {
      ColoursDistinct(app, c, d);
    }
  }

  /** What Put writes, name by name: the application's four names hold the slot,
      every other name what it held. */
  lemma PutContainers(w: World, app: Application, s: Slot)
    ensures var m := Put(w, app, s).containers;
            && (forall c :: (ContainerName(app.name, c) in m <==> c in s.containers)
                         && (c in s.containers ==> m[ContainerName(app.name, c)] == s.containers[c]))
            && (forall n :: n !in NamesOf(app.name) ==> (n in m <==> n in w.containers) && (n in m ==> m[n] == w.containers[n]))
  {
    hide ContainerName, Put, NamesOf;
    forall c
      ensures var m := Put(w, app, s).containers;
              (ContainerName(app.name, c) in m <==> c in s.containers)
              && (c in s.containers ==> m[ContainerName(app.name, c)] == s.containers[c])
    {
      PutOwn(w, app, s, c);
    }
    forall n | n !in NamesOf(app.name)
      ensures var m := Put(w, app, s).containers; (n in m <==> n in w.containers) && (n in m ==> m[n] == w.containers[n])
    {
      PutElsewhere(w, app, s, n);
    }
  }

  lemma PutOwn(w: World, app: Application, s: Slot, c: Colour)
    ensures var m := Put(w, app, s).containers;
            (ContainerName(app.name, c) in m <==> c in s.containers)
            && (c in s.containers ==> m[ContainerName(app.name, c)] == s.containers[c])
  {
    NamesApart(app.name);
    hide ContainerName;
  }

  lemma PutElsewhere(w: World, app: Application, s: Slot, n: string)
    requires n !in NamesOf(app.name)
    ensures var m := Put(w, app, s).containers; (n in m <==> n in w.containers) && (n in m ==> m[n] == w.containers[n])
  {
    hide ContainerName;
  }

  lemma PutRoutes(w: World, app: Application, s: Slot)
    ensures Put(w, app, s).routes == match s.route case Some(t) => w.routes[app.id := t] case None => w.routes - {app.id}
  {
    hide Write;
  }

  lemma ViewPut(w: World, app: Application, s: Slot)
    ensures View(Put(w, app, s), app) == s
  {
    hide ContainerName, Put;
    PutContainers(w, app, s);
    PutRoutes(w, app, s);
    assert View(Put(w, app, s), app).containers == s.containers;
  }

  lemma PutViewName(w: World, app: Application, n: string)
    ensures var m := Put(w, app, View(w, app)).containers;
            (n in m <==> n in w.containers) && (n in m ==> m[n] == w.containers[n])
  {
    hide ContainerName, Put;
    if n in NamesOf(app.name) {
      var c :| n == ContainerName(app.name, c);
      PutOwn(w, app, View(w, app), c);
    } else {
      PutElsewhere(w, app, View(w, app), n);
    }
  }

  lemma PutView(w: World, app: Application)
    ensures Put(w, app, View(w, app)) == w
  {
    var v := Put(w, app, View(w, app));
    PutRoutes(w, app, View(w, app));
    assert v.routes == w.routes;
    hide View, Put;
    forall n
      ensures (n in v.containers <==> n in w.containers) && (n in v.containers ==> v.containers[n] == w.containers[n])
    {
      PutViewName(w, app, n);
    }
    assert v.containers == w.containers;
  }

  lemma PutPut(w: World, app: Application, s: Slot, t: Slot)
    ensures Put(Put(w, app, s), app, t) == Put(w, app, t)
  {
    hide ContainerName, Put;
    PutContainers(w, app, s);
    PutContainers(Put(w, app, s), app, t);
    PutContainers(w, app, t);
    PutRoutes(w, app, s);
    PutRoutes(Put(w, app, s), app, t);
    PutRoutes(w, app, t);
    var m, k := Put(Put(w, app, s), app, t).containers, Put(w, app, t).containers;
    forall n
      ensures (n in m <==> n in k) && (n in m ==> m[n] == k[n])
    {
      if n in NamesOf(app.name) {
        var c :| n == ContainerName(app.name, c);
      }
    }
    assert m == k;
    assert Put(Put(w, app, s), app, t).routes == Put(w, app, t).routes;
  }

  lemma SameView(w: World, v: World, app: Application)
    requires forall c :: ContainerName(app.name, c) in v.containers <==> ContainerName(app.name, c) in w.containers
    requires forall c :: ContainerName(app.name, c) in v.containers ==>
      v.containers[ContainerName(app.name, c)] == w.containers[ContainerName(app.name, c)]
    requires app.id in v.routes <==> app.id in w.routes
    requires app.id in v.routes ==> v.routes[app.id] == w.routes[app.id]
    ensures View(v, app) == View(w, app)
  {
    assert View(v, app).containers == View(w, app).containers;
  }

  /** Writing one application's slot is invisible to every other application whose
      names do not collide with it. */
  lemma ViewOther(w: World, app: Application, s: Slot, other: Application)
    requires app.id != other.id
    requires NamesOf(app.name) !! NamesOf(other.name)
    ensures View(Put(w, app, s), other) == View(w, other)
  {
    var m := Put(w, app, s).containers;
    forall c
      ensures ContainerName(other.name, c) in m <==> ContainerName(other.name, c) in w.containers
      ensures ContainerName(other.name, c) in m ==> m[ContainerName(other.name, c)] == w.containers[ContainerName(other.name, c)]
    {
      assert ContainerName(other.name, c) in NamesOf(other.name);
      PutContainers(w, app, s);
    }
    SameView(w, Put(w, app, s), other);
  }
}
