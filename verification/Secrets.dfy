/** Application secrets, public configuration and the secret audit log. */
module Secrets {

  /** One application, environment and target. */
  datatype Scope = Scope(app: nat, environment: string, target: string)

  datatype Key = Key(scope: Scope, name: string)

  datatype Action = Created | Rotated | Deleted | Used

  datatype Entry = Entry(key: Key, action: Action)

  type Ciphertext = seq<int>

  predicate ValidScope(s: Scope) {
    (s.environment == "production" || s.environment == "staging") && (s.target == "runtime" || s.target == "build")
  }

  datatype Error = InvalidScope | NameTaken | NotFound

  datatype Result = Ok | Err(error: Error)

  datatype State = State(secrets: map<Key, Ciphertext>, configuration: map<Key, string>, audit: seq<Entry>)

  datatype Op =
    | PutSecret(key: Key, value: Ciphertext)
    | DeleteSecret(key: Key)
    | UseSecrets(scope: Scope, names: seq<string>)
    | PutConfiguration(key: Key, text: string)
    | DeleteConfiguration(key: Key)

  function UsedEntries(scope: Scope, names: seq<string>): seq<Entry> {
    seq(|names|, i requires 0 <= i < |names| => Entry(Key(scope, names[i]), Used))
  }

  function Verdict(s: State, op: Op): Result {
    match op
    case PutSecret(k, _) =>
      if !ValidScope(k.scope) then Err(InvalidScope) else if k in s.configuration then Err(NameTaken) else Ok
    case DeleteSecret(k) => if k in s.secrets then Ok else Err(NotFound)
    case UseSecrets(_, _) => Ok
    case PutConfiguration(k, _) =>
      if !ValidScope(k.scope) then Err(InvalidScope) else if k in s.secrets then Err(NameTaken) else Ok
    case DeleteConfiguration(k) => if k in s.configuration then Ok else Err(NotFound)
  }

  function Next(s: State, op: Op): State {
    if Verdict(s, op) != Ok then s else
    match op
    case PutSecret(k, v) =>
      s.(secrets := s.secrets[k := v], audit := s.audit + [Entry(k, if k in s.secrets then Rotated else Created)])
    case DeleteSecret(k) => s.(secrets := s.secrets - {k}, audit := s.audit + [Entry(k, Deleted)])
    case UseSecrets(scope, names) => s.(audit := s.audit + UsedEntries(scope, names))
    case PutConfiguration(k, t) => s.(configuration := s.configuration[k := t])
    case DeleteConfiguration(k) => s.(configuration := s.configuration - {k})
  }

  function Run(s: State, ops: seq<Op>): State
    decreases ops
  {
    if ops == [] then s else Run(Next(s, ops[0]), ops[1..])
  }

  // ---- The store calls ----

  class Store {
    var secrets: map<Key, Ciphertext>
    var configuration: map<Key, string>
    var audit: seq<Entry>

    function Now(): State
      reads this
    {
      State(secrets, configuration, audit)
    }

    method PutApplicationSecret(k: Key, value: Ciphertext) returns (r: Result)
      modifies this
      ensures r == Verdict(old(Now()), PutSecret(k, value)) && Now() == Next(old(Now()), PutSecret(k, value))
      ensures r == (if k.scope.environment !in ["production", "staging"] || k.scope.target !in ["runtime", "build"] then Err(InvalidScope)
                    else if k in old(configuration) then Err(NameTaken) else Ok)
      ensures configuration == old(configuration)
      ensures r == Ok ==> secrets == old(secrets)[k := value]
                          && audit == old(audit) + [Entry(k, if k in old(secrets) then Rotated else Created)]
      ensures r != Ok ==> secrets == old(secrets) && audit == old(audit)
    {
      if !ValidScope(k.scope) {
        return Err(InvalidScope);
      }
      if k in configuration {
        return Err(NameTaken);
      }
      var known := k in secrets;
      secrets := secrets[k := value];
      var action := Created;
      if known {
        action := Rotated;
      }
      audit := audit + [Entry(k, action)];
      return Ok;
    }

    method DeleteApplicationSecret(k: Key) returns (r: Result)
      modifies this
      ensures r == Verdict(old(Now()), DeleteSecret(k)) && Now() == Next(old(Now()), DeleteSecret(k))
      ensures r == (if k in old(secrets) then Ok else Err(NotFound)) && configuration == old(configuration)
      ensures secrets == old(secrets) - {k}
      ensures audit == if r == Ok then old(audit) + [Entry(k, Deleted)] else old(audit)
    {
      if k !in secrets {
        return Err(NotFound);
      }
      secrets := secrets - {k};
      audit := audit + [Entry(k, Deleted)];
      return Ok;
    }

    method RecordSecretUse(scope: Scope, names: seq<string>)
      modifies this
      ensures Now() == Next(old(Now()), UseSecrets(scope, names))
      ensures secrets == old(secrets) && configuration == old(configuration) && |audit| == |old(audit)| + |names|
      ensures audit[..|old(audit)|] == old(audit)
      ensures forall i :: 0 <= i < |names| ==> audit[|old(audit)| + i] == Entry(Key(scope, names[i]), Used)
    {
      for i := 0 to |names|
        invariant secrets == old(secrets) && configuration == old(configuration)
        invariant audit == old(audit) + UsedEntries(scope, names)[..i]
      {
        audit := audit + [Entry(Key(scope, names[i]), Used)];
      }
    }

    method PutApplicationConfiguration(k: Key, value: string) returns (r: Result)
      modifies this
      ensures r == Verdict(old(Now()), PutConfiguration(k, value)) && Now() == Next(old(Now()), PutConfiguration(k, value))
      ensures r == (if k.scope.environment !in ["production", "staging"] || k.scope.target !in ["runtime", "build"] then Err(InvalidScope)
                    else if k in old(secrets) then Err(NameTaken) else Ok)
      ensures secrets == old(secrets) && audit == old(audit)
      ensures configuration == if r == Ok then old(configuration)[k := value] else old(configuration)
    {
      if !ValidScope(k.scope) {
        return Err(InvalidScope);
      }
      if k in secrets {
        return Err(NameTaken);
      }
      configuration := configuration[k := value];
      return Ok;
    }

    method DeleteApplicationConfiguration(k: Key) returns (r: Result)
      modifies this
      ensures r == Verdict(old(Now()), DeleteConfiguration(k)) && Now() == Next(old(Now()), DeleteConfiguration(k))
      ensures r == (if k in old(configuration) then Ok else Err(NotFound))
      ensures secrets == old(secrets) && audit == old(audit) && configuration == old(configuration) - {k}
    {
      if k !in configuration {
        return Err(NotFound);
      }
      configuration := configuration - {k};
      return Ok;
    }
  }

  // ---- Reading the log ----

  /** The secrets a reader of the log believes to exist. */
  function Replay(log: seq<Entry>): set<Key> {
    if log == [] then {} else
    var before := Replay(log[..|log| - 1]);
    var e := log[|log| - 1];
    match e.action
    case Created => before + {e.key}
    case Deleted => before - {e.key}
    case _ => before
  }

  /** The log about one key, without uses. */
  function Lifecycle(log: seq<Entry>, k: Key): seq<Action> {
    if log == [] then [] else
    var before := Lifecycle(log[..|log| - 1], k);
    var e := log[|log| - 1];
    if e.key == k && e.action != Used then before + [e.action] else before
  }

  /** (created rotated* deleted)*, the last round possibly unfinished: no two creations
      without a deletion between them, and no rotation or deletion of what is not there. */
  predicate Rounds(log: seq<Action>) {
    forall i :: 0 <= i < |log| ==> Follows(log, i)
  }

  predicate Follows(log: seq<Action>, i: nat)
    requires i < |log|
  {
    if log[i] == Created then i == 0 || log[i - 1] == Deleted
    else log[i] != Used && i > 0 && log[i - 1] != Deleted
  }

  predicate Open(log: seq<Action>) {
    |log| > 0 && log[|log| - 1] != Deleted
  }

  /** The log replays to the live secrets, each key's lifecycle consists of rounds that
      are open exactly while it lives, and no name is both secret and public. */
  ghost predicate Inv(s: State) {
    && Replay(s.audit) == s.secrets.Keys
    && (forall k :: Rounds(Lifecycle(s.audit, k)))
    && (forall k :: Open(Lifecycle(s.audit, k)) <==> k in s.secrets)
    && s.secrets.Keys !! s.configuration.Keys
  }

  lemma AppendEntry(log: seq<Entry>, e: Entry, k: Key)
    ensures Replay(log + [e]) == match e.action
                                 case Created => Replay(log) + {e.key}
                                 case Deleted => Replay(log) - {e.key}
                                 case _ => Replay(log)
    ensures Lifecycle(log + [e], k) == if e.key == k && e.action != Used then Lifecycle(log, k) + [e.action] else Lifecycle(log, k)
  {
    assert (log + [e])[..|log|] == log;
  }

  lemma {:induction false} AppendUses(log: seq<Entry>, uses: seq<Entry>, k: Key)
    requires forall e :: e in uses ==> e.action == Used
    ensures Replay(log + uses) == Replay(log) && Lifecycle(log + uses, k) == Lifecycle(log, k)
  {
    if uses == [] {
      assert log + uses == log;
    } else {
      var init, last := uses[..|uses| - 1], uses[|uses| - 1];
      AppendUses(log, init, k);
      AppendEntry(log + init, last, k);
      assert log + uses == log + init + [last];
    }
  }

  lemma RoundsAppend(log: seq<Action>, a: Action)
    requires Rounds(log) && a != Used && (a == Created <==> !Open(log))
    ensures Rounds(log + [a]) && (Open(log + [a]) <==> a != Deleted)
  {
    forall i | 0 <= i < |log| + 1
      ensures Follows(log + [a], i)
    {
      assert i < |log| ==> Follows(log, i);
    }
  }

  /** One entry about `e.key`, allowed by whether the key lives. */
  lemma EntryKeepsRounds(log: seq<Entry>, e: Entry, live: set<Key>, k: Key)
    requires e.action != Used && (e.action == Created <==> e.key !in live)
    requires Rounds(Lifecycle(log, k)) && (Open(Lifecycle(log, k)) <==> k in live)
    ensures var l := Lifecycle(log + [e], k);
            Rounds(l) && (Open(l) <==> k in (if e.action == Deleted then live - {e.key} else live + {e.key}))
  {
    hide Rounds, Open, Lifecycle;
    AppendEntry(log, e, k);
    if e.key == k {
      RoundsAppend(Lifecycle(log, k), e.action);
    }
  }

  lemma LoggedInv(s: State, e: Entry, z: State)
    requires Inv(s) && e.action != Used && (e.action == Created <==> e.key !in s.secrets)
    requires z.audit == s.audit + [e] && z.configuration == s.configuration
    requires z.secrets.Keys == if e.action == Deleted then s.secrets.Keys - {e.key} else s.secrets.Keys + {e.key}
    requires e.action != Deleted ==> e.key !in s.configuration
    ensures Inv(z)
  {
    hide Rounds, Open, Lifecycle, Replay;
    AppendEntry(s.audit, e, e.key);
    forall k
      ensures Rounds(Lifecycle(z.audit, k)) && (Open(Lifecycle(z.audit, k)) <==> k in z.secrets)
    {
      assert Rounds(Lifecycle(s.audit, k)) && (Open(Lifecycle(s.audit, k)) <==> k in s.secrets.Keys);
      EntryKeepsRounds(s.audit, e, s.secrets.Keys, k);
    }
  }

  lemma UsesInv(s: State, scope: Scope, names: seq<string>)
    requires Inv(s)
    ensures Inv(s.(audit := s.audit + UsedEntries(scope, names)))
  {
    hide Rounds, Open, Lifecycle, Replay;
    var z := s.(audit := s.audit + UsedEntries(scope, names));
    AppendUses(s.audit, UsedEntries(scope, names), Key(scope, ""));
    forall k
      ensures Lifecycle(z.audit, k) == Lifecycle(s.audit, k)
    {
      AppendUses(s.audit, UsedEntries(scope, names), k);
    }
  }

  lemma NextInv(s: State, op: Op)
    requires Inv(s)
    ensures Inv(Next(s, op))
  {
    hide Rounds, Open, Lifecycle, Replay;
    var z := Next(s, op);
    if Verdict(s, op) == Ok {
      match op
      case PutSecret(k, v) => LoggedInv(s, Entry(k, if k in s.secrets then Rotated else Created), z);
      case DeleteSecret(k) => LoggedInv(s, Entry(k, Deleted), z);
      case UseSecrets(scope, names) => UsesInv(s, scope, names);
      case _ =>
    }
  }

  lemma {:induction false} RunKeepsInv(s: State, ops: seq<Op>)
    requires Inv(s)
    ensures Inv(Run(s, ops))
    decreases ops
  {
    if ops != [] {
      NextInv(s, ops[0]);
      RunKeepsInv(Next(s, ops[0]), ops[1..]);
    }
  }

  /** Over any sequence of store calls on an empty store the log replays to exactly the
      live secrets, each key's lifecycle consists of rounds that are open exactly while
      the secret lives, and secret names stay disjoint from public ones. */
  lemma AuditIsFaithful(ops: seq<Op>, k: Key)
    ensures var s := Run(State(map[], map[], []), ops);
            && Replay(s.audit) == s.secrets.Keys
            && Rounds(Lifecycle(s.audit, k))
            && (Open(Lifecycle(s.audit, k)) <==> k in s.secrets)
            && !(k in s.secrets && k in s.configuration)
  {
    RunKeepsInv(State(map[], map[], []), ops);
  }
}
