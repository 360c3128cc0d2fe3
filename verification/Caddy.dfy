/** Caddy's ordered list of routes and caddyClient.UpsertRoute, which replaces or appends
    one application's route over HTTP and reads it back. This is where the three ways an
    Apply can end, and the map of routes in Containers.World, come from. */
module Caddy {
  import opened Options
  import opened Containers
  import opened BlueGreen

  /** `owner` is the application in the route's @id; bootstrap routes have none. */
  datatype Route = Route(owner: Option<int>, host: string, dial: Target)

  /** How an HTTP exchange goes: as it should, without an answer although the request may
      have taken effect, or with an error status (not 404) and no effect. */
  datatype Exchange = Answered | Unanswered(took: bool) | Rejected

  datatype Http = Http(patch: Exchange, post: Exchange, readBack: bool)

  /** @ids are unique in a Caddy configuration. */
  predicate UniqueOwners(routes: seq<Route>) {
    forall i, j :: 0 <= i < j < |routes| && routes[i].owner.Some? ==> routes[i].owner != routes[j].owner
  }

  /** Where the route of `id` is, or would be appended. */
  function Position(routes: seq<Route>, id: int): (n: nat)
    ensures n <= |routes|
    ensures n < |routes| ==> routes[n].owner == Some(id)
    ensures forall i :: 0 <= i < n ==> routes[i].owner != Some(id)
  {
    if routes == [] || routes[0].owner == Some(id) then 0 else 1 + Position(routes[1..], id)
  }

  predicate HasRoute(routes: seq<Route>, id: int) {
    Position(routes, id) < |routes|
  }

  function Upserted(routes: seq<Route>, id: int, host: string, dial: Target): seq<Route> {
    var r := Route(Some(id), host, dial);
    if HasRoute(routes, id) then routes[Position(routes, id) := r] else routes + [r]
  }

  /** The call the rest of the model sees. */
  function AsCall(known: bool, http: Http): Call {
    var exchange := if known || !http.patch.Answered? then http.patch else http.post;
    match exchange
    case Answered => if http.readBack then Done else Lost
    case Unanswered(took) => if took && (known || http.patch.Answered?) then Lost else Refused
    case Rejected => Refused
  }

  /** A call is done exactly if the exchange that applies (PATCH for a known id, POST after
      an answered 404) and the read-back went well; it is without effect exactly if that
      exchange was refused or lost before it took effect. */
  lemma AsCallExactly(known: bool, http: Http)
    ensures AsCall(known, http) == Done <==> http.patch.Answered? && (known || http.post.Answered?) && http.readBack
    ensures AsCall(known, http) != Refused <==>
              if known then http.patch.Answered? || http.patch == Unanswered(true)
              else http.patch.Answered? && (http.post.Answered? || http.post == Unanswered(true))
  {
  }

  class Server {
    var routes: seq<Route>

    /** PATCH /id/...: strict replacement, 404 (false) for an unknown id. */
    method Patch(id: int, host: string, dial: Target, exchange: Exchange) returns (answered: bool, found: bool)
      modifies this
      ensures answered ==> exchange.Answered? && found == HasRoute(old(routes), id)
      ensures !answered ==> !exchange.Answered?
      ensures routes == if HasRoute(old(routes), id) && (exchange.Answered? || (exchange.Unanswered? && exchange.took))
                        then Upserted(old(routes), id, host, dial) else old(routes)
    {
      answered, found := exchange.Answered?, false;
      if exchange.Rejected? || (exchange.Unanswered? && !exchange.took) {
        return;
      }
      for i := 0 to |routes|
        invariant routes == old(routes) && forall j :: 0 <= j < i ==> routes[j].owner != Some(id)
      {
        if routes[i].owner == Some(id) {
          routes := routes[i := Route(Some(id), host, dial)];
          found := true;
          return;
        }
      }
    }

    /** POST .../routes: append. */
    method Post(id: int, host: string, dial: Target, exchange: Exchange) returns (answered: bool)
      modifies this
      ensures answered == exchange.Answered?
      ensures routes == if exchange.Answered? || (exchange.Unanswered? && exchange.took)
                        then old(routes) + [Route(Some(id), host, dial)] else old(routes)
    {
      answered := exchange.Answered?;
      if exchange.Answered? || (exchange.Unanswered? && exchange.took) {
        routes := routes + [Route(Some(id), host, dial)];
      }
    }

    /** verifyRouteTarget: reads the route of `id` and looks for the target. */
    method VerifyRouteTarget(id: int, dial: Target, answers: bool) returns (ok: bool)
      ensures ok <==> answers && HasRoute(routes, id) && routes[Position(routes, id)].dial == dial
    {
      if !answers {
        return false;
      }
      for i := 0 to |routes|
        invariant forall j :: 0 <= j < i ==> routes[j].owner != Some(id)
      {
        if routes[i].owner == Some(id) {
          return routes[i].dial == dial;
        }
      }
      return false;
    }

    /** Exactly one of the three calls: the whole new list is the old one or the upserted
        one, and success is only reported for the latter. */
    method UpsertRoute(id: int, host: string, dial: Target, http: Http) returns (ok: bool)
      modifies this
      ensures var call := AsCall(HasRoute(old(routes), id), http);
              && routes == (if Took(call) then Upserted(old(routes), id, host, dial) else old(routes))
              && ok == (call == Done)
      ensures ok <==> http.patch.Answered? && (HasRoute(old(routes), id) || http.post.Answered?) && http.readBack
      ensures !HasRoute(old(routes), id) ==>
                routes == if http.patch.Answered? && (http.post.Answered? || http.post == Unanswered(true))
                          then old(routes) + [Route(Some(id), host, dial)] else old(routes)
      ensures HasRoute(old(routes), id) ==>
                routes == if http.patch.Answered? || http.patch == Unanswered(true)
                          then old(routes)[Position(old(routes), id) := Route(Some(id), host, dial)] else old(routes)
    {
      var answered, found := Patch(id, host, dial, http.patch);
      if !answered {
        return false;
      }
      if !found {
        answered := Post(id, host, dial, http.post);
        if !answered {
          return false;
        }
      }
      UpsertedRoute(old(routes), id, host, dial);
      ok := VerifyRouteTarget(id, dial, http.readBack);
    }
  }

  lemma UpsertedRoute(routes: seq<Route>, id: int, host: string, dial: Target)
    ensures var u := Upserted(routes, id, host, dial);
            HasRoute(u, id) && Position(u, id) == Position(routes, id) && u[Position(u, id)] == Route(Some(id), host, dial)
  {
    var u, n := Upserted(routes, id, host, dial), Position(routes, id);
    assert u[n].owner == Some(id);
    assert forall i :: 0 <= i < n ==> u[i] == routes[i];
  }

  // ---- The list as the map of Containers.World ----

  function Owners(routes: seq<Route>): set<int> {
    set r | r in routes && r.owner.Some? :: r.owner.value
  }

  function RouteMap(routes: seq<Route>): map<int, Target> {
    map id | id in Owners(routes) && HasRoute(routes, id) :: routes[Position(routes, id)].dial
  }

  lemma HasRouteExactly(routes: seq<Route>, id: int)
    ensures HasRoute(routes, id) <==> id in Owners(routes)
  {
  }

  /** Two lists that agree on who owns each place agree on every position. */
  lemma PositionElsewhere(routes: seq<Route>, id: int, host: string, dial: Target, other: int)
    requires other != id
    ensures var u := Upserted(routes, id, host, dial);
            && (HasRoute(u, other) <==> HasRoute(routes, other))
            && (HasRoute(u, other) ==> Position(u, other) == Position(routes, other) && u[Position(u, other)] == routes[Position(u, other)])
  {
    var u := Upserted(routes, id, host, dial);
    var n, m := Position(routes, other), Position(u, other);
    if n < |routes| {
      assert u[n] == routes[n];
      assert m <= n;
    }
    if m < |u| {
      assert m < |routes|;
      assert u[m] == routes[m];
      assert n <= m;
    }
  }

  /** On the map of routes an upsert is one update. */
  lemma UpsertIsUpdate(routes: seq<Route>, id: int, host: string, dial: Target)
    ensures RouteMap(Upserted(routes, id, host, dial)) == RouteMap(routes)[id := dial]
  {
    hide Upserted, Owners;
    var u := Upserted(routes, id, host, dial);
    UpsertedRoute(routes, id, host, dial);
    forall other
      ensures other in RouteMap(u) <==> other == id || other in RouteMap(routes)
      ensures other != id && other in RouteMap(u) ==> RouteMap(u)[other] == RouteMap(routes)[other]
    {
      HasRouteExactly(u, other);
      HasRouteExactly(routes, other);
      if other != id {
        PositionElsewhere(routes, id, host, dial, other);
      }
    }
  }

  // ---- Which route answers a request ----

  /** The first route of the list that matches the host. */
  function Answering(routes: seq<Route>, host: string): (n: nat)
    ensures n <= |routes|
    ensures n < |routes| ==> routes[n].host == host
    ensures forall i :: 0 <= i < n ==> routes[i].host != host
  {
    if routes == [] || routes[0].host == host then 0 else 1 + Answering(routes[1..], host)
  }

  /** After an upsert the application's own route answers for its host exactly when no
      route before it matches that host too; the read-back does not look at that. */
  lemma OwnRouteAnswersExactly(routes: seq<Route>, id: int, host: string, dial: Target)
    ensures var u, n := Upserted(routes, id, host, dial), Position(routes, id);
            Answering(u, host) == n <==> forall i :: 0 <= i < n ==> routes[i].host != host
  {
    var u, n := Upserted(routes, id, host, dial), Position(routes, id);
    assert u[n].host == host;
    assert forall i :: 0 <= i < n ==> u[i] == routes[i];
  }

  /** Every owned route carries its application's domain, and nobody else's route does. */
  predicate OwnDomains(routes: seq<Route>, domains: map<int, string>) {
    forall i :: 0 <= i < |routes| ==>
      match routes[i].owner
      case Some(id) => id in domains && routes[i].host == domains[id]
      case None => routes[i].host !in domains.Values
  }

  predicate Injective(domains: map<int, string>) {
    forall a, b :: a in domains && b in domains && domains[a] == domains[b] ==> a == b
  }

  datatype Upsert = Upsert(id: int, dial: Target, http: Http)

  function Next(routes: seq<Route>, domains: map<int, string>, u: Upsert): seq<Route>
    requires u.id in domains
  {
    if Took(AsCall(HasRoute(routes, u.id), u.http)) then Upserted(routes, u.id, domains[u.id], u.dial) else routes
  }

  function Run(routes: seq<Route>, domains: map<int, string>, us: seq<Upsert>): seq<Route>
    requires forall i :: 0 <= i < |us| ==> us[i].id in domains
    decreases us
  {
    if us == [] then routes else Run(Next(routes, domains, us[0]), domains, us[1..])
  }

  lemma UpsertKeepsList(routes: seq<Route>, id: int, domains: map<int, string>, dial: Target)
    requires UniqueOwners(routes) && OwnDomains(routes, domains) && id in domains
    ensures var u := Upserted(routes, id, domains[id], dial); UniqueOwners(u) && OwnDomains(u, domains)
  {
  }

  /** Whatever calls were made and however they ended, each @id stays unique, and with
      distinct domains every application that has a route answers for its domain with
      exactly that route: what RouteMap says is where its requests go. */
  lemma {:induction false} EveryDomainAnswered(routes: seq<Route>, domains: map<int, string>, us: seq<Upsert>, id: int)
    requires UniqueOwners(routes) && OwnDomains(routes, domains) && Injective(domains)
    requires forall i :: 0 <= i < |us| ==> us[i].id in domains
    requires id in domains
    ensures var z := Run(routes, domains, us);
            && UniqueOwners(z)
            && (id in RouteMap(z) <==> Answering(z, domains[id]) < |z|)
            && (id in RouteMap(z) ==> z[Answering(z, domains[id])].dial == RouteMap(z)[id])
    decreases us
  {
    if us == [] {
      HasRouteExactly(routes, id);
      var n, m := Position(routes, id), Answering(routes, domains[id]);
      if n < |routes| {
        assert routes[n].host == domains[id];
      }
      if m < |routes| {
        assert domains[id] in domains.Values;
        assert routes[m].owner == Some(id);
      }
    } else {
      UpsertKeepsList(routes, us[0].id, domains, us[0].dial);
      EveryDomainAnswered(Next(routes, domains, us[0]), domains, us[1..], id);
    }
  }
}
