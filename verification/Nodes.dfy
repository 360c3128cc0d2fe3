/** Agent streams and the node registry. UpsertNode is three separate statements, so
    streams interleave between them. */
module Nodes {
  datatype Node = Node(name: string, version: string, capabilities: seq<string>, fingerprint: string, createdAt: int, lastSeenAt: int)

  type Registry = map<string, Node>

  /** The arguments of one UpsertNode call. */
  datatype Upsert = Upsert(id: string, name: string, version: string, capabilities: seq<string>, fingerprint: string)

  predicate Complete(u: Upsert) {
    u.id != "" && u.name != "" && u.version != "" && u.fingerprint != ""
  }

  // ---- Connect ----

  datatype Message = Message(kind: string, nodeID: string, name: string, version: string, capabilities: seq<string>)

  /** ^[a-z0-9][a-z0-9-]{0,62}$ */
  predicate ValidNodeID(id: string) {
    && 1 <= |id| <= 63
    && (forall i :: 0 <= i < |id| ==> 'a' <= id[i] <= 'z' || '0' <= id[i] <= '9' || (i > 0 && id[i] == '-'))
  }

  predicate ValidHello(m: Message) {
    m.kind == "hello" && ValidNodeID(m.nodeID) && m.name != "" && m.version != ""
  }

  predicate ValidHeartbeat(first: Message, m: Message) {
    m.kind == "heartbeat" && m.nodeID == first.nodeID
  }

  /** How many messages of the stream are accepted: the hello and the heartbeats before
      the first invalid message. */
  function Accepted(messages: seq<Message>): (n: nat)
    ensures n <= |messages|
  {
    if messages == [] || !ValidHello(messages[0]) then 0 else 1 + Heartbeats(messages[0], messages[1..])
  }

  function Heartbeats(first: Message, messages: seq<Message>): (n: nat)
    ensures n <= |messages|
  {
    if messages == [] || !ValidHeartbeat(first, messages[0]) then 0 else 1 + Heartbeats(first, messages[1..])
  }

  /** The receive loop. Every message it accepts becomes one upsert with the hello's
      name, version and capabilities and the stream's own certificate; a rejected upsert
      (at index `failsAt`) ends it. */
  method Connect(fingerprint: string, messages: seq<Message>, failsAt: nat) returns (upserts: seq<Upsert>, ok: bool)
    ensures |upserts| == if failsAt < Accepted(messages) then failsAt + 1 else Accepted(messages)
    ensures forall i :: 0 <= i < |upserts| ==>
              upserts[i] == Upsert(messages[0].nodeID, messages[0].name, messages[0].version, messages[0].capabilities, fingerprint)
    ensures fingerprint != "" ==> forall u :: u in upserts ==> Complete(u)
    ensures ok <==> |messages| > 0 && Accepted(messages) == |messages| && failsAt >= |messages|
    ensures |upserts| > 0 ==> messages[0].kind == "hello" && ValidNodeID(messages[0].nodeID) && messages[0].name != "" && messages[0].version != ""
    ensures forall i :: 1 <= i < |upserts| ==> messages[i].kind == "heartbeat" && messages[i].nodeID == messages[0].nodeID
    ensures |messages| > 0 && upserts == [] ==>
              messages[0].kind != "hello" || !ValidNodeID(messages[0].nodeID) || messages[0].name == "" || messages[0].version == ""
    ensures 0 < |upserts| < |messages| && |upserts| <= failsAt ==>
              messages[|upserts|].kind != "heartbeat" || messages[|upserts|].nodeID != messages[0].nodeID
  {
    upserts, ok := [], false;
    if |messages| == 0 || !ValidHello(messages[0]) {
      return;
    }
    var first := messages[0];
    upserts := [Upsert(first.nodeID, first.name, first.version, first.capabilities, fingerprint)];
    if failsAt == 0 {
      return;
    }
    for i := 1 to |messages|
      invariant |upserts| == i && i <= failsAt
      invariant forall j :: 1 <= j < i ==> messages[j].kind == "heartbeat" && messages[j].nodeID == messages[0].nodeID
      invariant Accepted(messages) == i + Heartbeats(first, messages[i..])
      invariant forall j :: 0 <= j < i ==>
                  upserts[j] == Upsert(first.nodeID, first.name, first.version, first.capabilities, fingerprint)
    {
      assert messages[i..][1..] == messages[i + 1..];
      var message := messages[i];
      if message.kind != "heartbeat" || message.nodeID != first.nodeID {
        return;
      }
      message := message.(name := first.name, version := first.version, capabilities := first.capabilities);
      upserts := upserts + [Upsert(message.nodeID, message.name, message.version, message.capabilities, fingerprint)];
      if failsAt == i {
        return;
      }
    }
    ok := true;
  }

  // ---- UpsertNode, statement by statement ----

  /** Where one call is: before its update, before its select, before its insert, over. */
  datatype Phase = Updating | Selecting | Inserting | Over(ok: bool)

  datatype Call = Call(upsert: Upsert, phase: Phase)

  /** The registry and any number of calls in progress, from any streams. */
  datatype Sys = Sys(nodes: Registry, calls: map<nat, Call>)

  datatype Event = Begin(call: nat, upsert: Upsert) | Statement(call: nat, now: int)

  predicate Matches(nodes: Registry, u: Upsert) {
    u.id in nodes && nodes[u.id].fingerprint == u.fingerprint
  }

  function Update(nodes: Registry, u: Upsert, now: int): Registry {
    if Matches(nodes, u)
    then nodes[u.id := nodes[u.id].(name := u.name, version := u.version, capabilities := u.capabilities, lastSeenAt := now)]
    else nodes
  }

  function Execute(y: Sys, c: nat, now: int): Sys
    requires c in y.calls && !y.calls[c].phase.Over?
  {
    var u := y.calls[c].upsert;
    match y.calls[c].phase
    case Updating =>
      Sys(Update(y.nodes, u, now), y.calls[c := Call(u, if Matches(y.nodes, u) then Over(true) else Selecting)])
    case Selecting =>
      y.(calls := y.calls[c := Call(u, if u.id in y.nodes then Over(false) else Inserting)])
    case Inserting =>
      if u.id in y.nodes
      then y.(calls := y.calls[c := Call(u, Over(false))])      // primary key conflict
      else Sys(y.nodes[u.id := Node(u.name, u.version, u.capabilities, u.fingerprint, now, now)], y.calls[c := Call(u, Over(true))])
  }

  function Next(y: Sys, e: Event): Sys {
    match e
    case Begin(c, u) => if c in y.calls || !Complete(u) then y else y.(calls := y.calls[c := Call(u, Updating)])
    case Statement(c, now) => if c in y.calls && !y.calls[c].phase.Over? then Execute(y, c, now) else y
  }

  function Run(y: Sys, es: seq<Event>): Sys
    decreases es
  {
    if es == [] then y else Run(Next(y, es[0]), es[1..])
  }

  /** One statement changes at most the node its call names; an enrolled node keeps its
      fingerprint and creation time, and changes at all only under its own certificate. */
  lemma StatementIsBound(y: Sys, e: Event, id: string)
    requires id in y.nodes
    ensures var z := Next(y, e);
            && id in z.nodes
            && z.nodes[id].fingerprint == y.nodes[id].fingerprint && z.nodes[id].createdAt == y.nodes[id].createdAt
            && (z.nodes[id] != y.nodes[id] ==>
                  e.Statement? && e.call in y.calls && y.calls[e.call].upsert.id == id
                  && y.calls[e.call].upsert.fingerprint == y.nodes[id].fingerprint)
  {
  }

  /** No call of the system, and no call begun in the run, holds this certificate for the
      node. */
  predicate NobodyHolds(y: Sys, es: seq<Event>, id: string, fingerprint: string) {
    && (forall c :: c in y.calls && y.calls[c].upsert.id == id ==> y.calls[c].upsert.fingerprint != fingerprint)
    && (forall i :: 0 <= i < |es| && es[i].Begin? && es[i].upsert.id == id ==> es[i].upsert.fingerprint != fingerprint)
  }

  /** Under any interleaving an enrolled node's identity never changes, and without a call
      presenting its certificate nothing about it does. */
  lemma {:induction false} IdentityIsBound(y: Sys, es: seq<Event>, id: string)
    requires id in y.nodes
    ensures var z := Run(y, es);
            && id in z.nodes
            && z.nodes[id].fingerprint == y.nodes[id].fingerprint && z.nodes[id].createdAt == y.nodes[id].createdAt
            && (NobodyHolds(y, es, id, y.nodes[id].fingerprint) ==> z.nodes[id] == y.nodes[id])
    decreases es
  {
    if es != [] {
      var n := Next(y, es[0]);
      StatementIsBound(y, es[0], id);
      if NobodyHolds(y, es, id, y.nodes[id].fingerprint) {
        assert forall i :: 0 <= i < |es[1..]| ==> es[1..][i] == es[i + 1];
        assert NobodyHolds(n, es[1..], id, y.nodes[id].fingerprint);
        assert n.nodes[id] == y.nodes[id];
      }
      IdentityIsBound(n, es[1..], id);
    }
  }

  /** The node holds the data of this upsert, under its certificate. */
  predicate WroteBy(nodes: Registry, u: Upsert, now: int) {
    && Matches(nodes, u)
    && nodes[u.id].name == u.name && nodes[u.id].version == u.version && nodes[u.id].capabilities == u.capabilities
    && nodes[u.id].lastSeenAt == now
  }

  /** A statement ends its call successfully only by writing the call's own data, any
      other statement leaves the registry alone, and no other node is ever touched. */
  lemma SuccessMeansWritten(y: Sys, c: nat, now: int)
    requires c in y.calls && !y.calls[c].phase.Over?
    ensures var u, z := y.calls[c].upsert, Execute(y, c, now);
            && (z.calls[c].phase == Over(true) ==> WroteBy(z.nodes, u, now))
            && (z.calls[c].phase != Over(true) ==> z.nodes == y.nodes)
            && (z.calls[c].phase == Over(false) ==> u.id in y.nodes)
            && forall id :: id != u.id ==> (id in z.nodes <==> id in y.nodes) && (id in z.nodes ==> z.nodes[id] == y.nodes[id])
  {
  }

  /** A call that nobody interferes with: for a node that is not enrolled it enrolls it
      under its certificate, for one with that certificate it updates all but fingerprint
      and creation time, and for any other it fails and changes nothing. */
  lemma UpsertAlone(y: Sys, c: nat, now: int)
    requires c in y.calls && y.calls[c].phase == Updating
    ensures var u := y.calls[c].upsert;
            var z := Run(y, [Statement(c, now), Statement(c, now), Statement(c, now)]);
            && c in z.calls
            && z.calls[c].phase == Over(u.id !in y.nodes || y.nodes[u.id].fingerprint == u.fingerprint)
            && z.nodes == (if u.id !in y.nodes
                           then y.nodes[u.id := Node(u.name, u.version, u.capabilities, u.fingerprint, now, now)]
                           else if y.nodes[u.id].fingerprint == u.fingerprint
                           then y.nodes[u.id := Node(u.name, u.version, u.capabilities, u.fingerprint, y.nodes[u.id].createdAt, now)]
                           else y.nodes)
  {
    var e := Statement(c, now);
    assert [e, e, e][1..] == [e, e] && [e, e][1..] == [e] && [e][1..] == [];
    var y1 := Next(y, e);
    var y2 := Next(y1, e);
    assert Run(y, [e, e, e]) == Run(y1, [e, e]) == Run(y2, [e]) == Run(Next(y2, e), []);
  }

  /** Two first connections for one identifier with different certificates: whatever the
      interleaving of their statements, the loser never takes over the node. */
  lemma FirstCertificateWins(y: Sys, es: seq<Event>, u: Upsert, v: Upsert, c: nat, d: nat)
    requires y.nodes == map[] && y.calls == map[c := Call(u, Updating), d := Call(v, Updating)] && c != d
    requires u.id == v.id && u.fingerprint != v.fingerprint
    requires forall i :: 0 <= i < |es| ==> es[i].Statement?
    ensures var z := Run(y, es); c in z.calls && d in z.calls && !(z.calls[c].phase == Over(true) && z.calls[d].phase == Over(true))
  {
    RaceInvariant(y, es, c, d);
  }

  /** A finished call of the race holds the node. */
  predicate Race(y: Sys, u: Upsert, v: Upsert, c: nat, d: nat) {
    && c in y.calls && d in y.calls && c != d && y.calls[c].upsert == u && y.calls[d].upsert == v
    && (y.calls[c].phase == Over(true) ==> Matches(y.nodes, u))
    && (y.calls[d].phase == Over(true) ==> Matches(y.nodes, v))
  }

  lemma {:induction false} RaceInvariant(y: Sys, es: seq<Event>, c: nat, d: nat)
    requires c in y.calls && d in y.calls
    requires Race(y, y.calls[c].upsert, y.calls[d].upsert, c, d)
    requires forall i :: 0 <= i < |es| ==> es[i].Statement?
    ensures Race(Run(y, es), y.calls[c].upsert, y.calls[d].upsert, c, d)
    decreases es
  {
    if es != [] {
      assert es[0].Statement?;
      assert forall i :: 0 <= i < |es[1..]| ==> es[1..][i] == es[i + 1];
      RaceInvariant(Next(y, es[0]), es[1..], c, d);
    }
  }
}
