/** The schema migrations: resumable after a crash at any statement of any attempt. */
module Migration {
  import opened Options

  /** What a statement can bring into existence. */
  datatype Item = Table(name: string) | Column(table: string, name: string) | Index(name: string) | DefaultRow(table: string)

  /** `Ensure` is CREATE ... IF NOT EXISTS, INSERT OR IGNORE, or ADD COLUMN with the
      duplicate-column error tolerated; it fails when what it refers to is missing. */
  datatype Stmt =
    | Ensure(item: Item, needs: set<Item>)
    | FixFlags                              // deploy_on_push off where both flags are on
    | SetVersion(n: nat)

  datatype Flags = Flags(push: bool, confirm: bool)

  /** `active` counts the queued and running rows of each application. */
  datatype Db = Db(items: set<Item>, version: nat, apps: map<nat, Flags>, active: map<nat, nat>)

  const PUSH := Column("applications", "deploy_on_push")
  const CONFIRM := Column("applications", "require_confirmation")
  const ACTIVE_INDEX := Index("one_active_deployment_per_application")

  // ---- The migrations ----

  function Tables(names: seq<string>): seq<Stmt> {
    seq(|names|, i requires 0 <= i < |names| => Ensure(Table(names[i]), {}))
  }

  function Columns(table: string, names: seq<string>): seq<Stmt> {
    seq(|names|, i requires 0 <= i < |names| => Ensure(Column(table, names[i]), {Table(table)}))
  }

  function IndexOn(name: string, table: string): Stmt {
    Ensure(Index(name), {Table(table)})
  }

  const BASE_TABLES := ["settings", "secrets", "secret_audit", "application_configuration", "applications", "automation_settings", "deployments"]

  const APPLICATION_COLUMNS := ["deploy_on_push", "require_confirmation", "auto_rollback", "github_installation_id", "health_endpoint"]

  const DEPLOYMENT_COLUMNS := [
    "action", "requested_ref", "source_revision", "source_fingerprint", "artifact_digest", "runtime", "internal_port",
    "health_endpoint", "manifest", "configuration_digest", "failure_stage", "failure_code", "failure_detail", "attempt",
    "heartbeat_at", "lease_expires_at", "cancellation_requested_at", "queue_duration_ms", "source_duration_ms",
    "build_duration_ms", "start_duration_ms", "health_duration_ms", "route_duration_ms", "current_stage"]

  function V1(): seq<Stmt> {
    Tables(BASE_TABLES)
  }

  function V2(): seq<Stmt> {
    Columns("applications", ["runtime"]) + Columns("applications", APPLICATION_COLUMNS)
    + Columns("secret_audit", ["target"]) + Columns("deployments", DEPLOYMENT_COLUMNS)
  }

  function V3(): seq<Stmt> {
    Tables(["deployment_events", "alerts"])
    + [IndexOn("deployment_events_deployment_id", "deployment_events"), IndexOn("alerts_application_id", "alerts"),
       FixFlags, Ensure(ACTIVE_INDEX, {Table("deployments")})]
  }

  function V4(): seq<Stmt> {
    Tables(["application_health", "route_probes"]) + [IndexOn("route_probes_checked_at", "route_probes")]
  }

  function V6(): seq<Stmt> {
    Tables(["identity_providers", "users", "federated_identities", "role_bindings", "identity_audit"])
  }

  function V7(): seq<Stmt> {
    Tables(["nodes"]) + [IndexOn("nodes_last_seen_at", "nodes")]
  }

  function V10(): seq<Stmt> {
    Tables(["cloudflare_config"]) + [Ensure(DefaultRow("cloudflare_config"), {Table("cloudflare_config")})]
  }

  function Migrations(n: nat): seq<Stmt> {
    match n
    case 1 => V1()
    case 2 => V2()
    case 3 => V3()
    case 4 => V4()
    case 5 => Tables(["webhook_deliveries"])
    case 6 => V6()
    case 7 => V7()
    case 8 => Tables(["webhook_rate_limits"])
    case 9 => Tables(["unlock_attempts"])
    case 10 => V10()
    case _ => []
  }


  /** The schema version of the program, and the number of migrations. The theorems hold
      for a program at any version from 3, when the flags were first put right, up to it. */
  const LATEST := 10

  /** Migrations 1 to n, without the version statements. */
  function All(n: nat): seq<Stmt> {
    if n == 0 then [] else All(n - 1) + Migrations(n)
  }

  function Adds(s: Stmt): set<Item> {
    if s.Ensure? then {s.item} else {}
  }

  function ItemsOf(p: seq<Stmt>): set<Item> {
    if p == [] then {} else Adds(p[0]) + ItemsOf(p[1..])
  }

  function PlanFrom(n: nat, latest: nat): seq<Stmt>
    decreases latest + 1 - n
  {
    if n > latest then [] else Migrations(n) + ([SetVersion(n)] + PlanFrom(n + 1, latest))
  }

  /** What migrate is going to execute: an unversioned database that already has its
      settings table goes through everything and gets its version at the end. */
  function Plan(db: Db, latest: nat): seq<Stmt> {
    if db.version == 0 && Table("settings") in db.items then All(latest) + [SetVersion(latest)]
    else PlanFrom(db.version + 1, latest)
  }

  // ---- Executing statements ----

  predicate OneActive(db: Db) {
    forall a :: a in db.active ==> db.active[a] <= 1
  }

  predicate NoBoth(db: Db) {
    forall a :: a in db.apps ==> !(db.apps[a].push && db.apps[a].confirm)
  }

  /** A new flag column holds its default, true, in every existing row. */
  function Defaulted(apps: map<nat, Flags>, item: Item): map<nat, Flags> {
    map a | a in apps :: if item == PUSH then apps[a].(push := true)
                         else if item == CONFIRM then apps[a].(confirm := true)
                         else apps[a]
  }

  function Fixed(apps: map<nat, Flags>): map<nat, Flags> {
    map a | a in apps :: if apps[a].push && apps[a].confirm then apps[a].(push := false) else apps[a]
  }

  function Exec(db: Db, s: Stmt): Option<Db> {
    match s
    case Ensure(item, needs) =>
      if !(needs <= db.items) then None
      else if item in db.items then Some(db)
      else if item == ACTIVE_INDEX && !OneActive(db) then None
      else Some(db.(items := db.items + {item}, apps := Defaulted(db.apps, item)))
    case FixFlags =>
      if !({PUSH, CONFIRM} <= db.items) then None else Some(db.(apps := Fixed(db.apps)))
    case SetVersion(n) => Some(db.(version := n))
  }

  datatype Outcome = Outcome(db: Db, ok: bool)

  /** Execution stops at the first error and keeps what was done before it. */
  function Execute(db: Db, p: seq<Stmt>): Outcome
    decreases p
  {
    if p == [] then Outcome(db, true) else
    match Exec(db, p[0])
    case None => Outcome(db, false)
    case Some(d) => Execute(d, p[1..])
  }

  lemma {:induction false} ExecuteConcat(db: Db, p: seq<Stmt>, q: seq<Stmt>)
    ensures Execute(db, p).ok ==> Execute(db, p + q) == Execute(Execute(db, p).db, q)
    ensures !Execute(db, p).ok ==> Execute(db, p + q) == Execute(db, p)
    decreases p
  {
    if p == [] {
      assert p + q == q;
    } else {
      assert (p + q)[1..] == p[1..] + q;
      match Exec(db, p[0])
      case None =>
      case Some(d) => ExecuteConcat(d, p[1..], q);
    }
  }

  // ---- Plans that can be run from a database with at least the given items ----

  /** Every reference exists when it is reached, and a version is only recorded once
      everything it stands for has been done; `fixed` says that the flags have been. */
  ghost predicate Ready(latest: nat, items: set<Item>, fixed: bool, s: Stmt) {
    match s
    case Ensure(item, needs) => needs <= items
    case FixFlags => {PUSH, CONFIRM} <= items
    case SetVersion(n) => n <= latest && ItemsOf(All(n)) <= items && (n >= 3 ==> fixed)
  }

  ghost predicate Sound(latest: nat, items: set<Item>, fixed: bool, p: seq<Stmt>)
    decreases p
  {
    p == [] || (Ready(latest, items, fixed, p[0]) && Sound(latest, items + Adds(p[0]), fixed || p[0].FixFlags?, p[1..]))
  }

  lemma {:induction false} ItemsOfConcat(p: seq<Stmt>, q: seq<Stmt>)
    ensures ItemsOf(p + q) == ItemsOf(p) + ItemsOf(q)
  {
    if p == [] {
      assert p + q == q;
    } else {
      assert (p + q)[1..] == p[1..] + q;
      ItemsOfConcat(p[1..], q);
    }
  }

  lemma {:induction false} SoundMonotone(latest: nat, items: set<Item>, more: set<Item>, fixed: bool, fixedToo: bool, p: seq<Stmt>)
    requires items <= more && (fixed ==> fixedToo) && Sound(latest, items, fixed, p)
    ensures Sound(latest, more, fixedToo, p)
    decreases p
  {
    hide Adds;
    if p != [] {
      SoundMonotone(latest, items + Adds(p[0]), more + Adds(p[0]), fixed || p[0].FixFlags?, fixedToo || p[0].FixFlags?, p[1..]);
    }
  }

  lemma {:induction false} SoundConcat(latest: nat, items: set<Item>, fixed: bool, p: seq<Stmt>, q: seq<Stmt>)
    requires Sound(latest, items, fixed, p)
    requires Sound(latest, items + ItemsOf(p), fixed || FixFlags in p, q)
    ensures Sound(latest, items, fixed, p + q)
    decreases p
  {
    hide Ready, Adds;
    if p == [] {
      assert p + q == q && items + ItemsOf(p) == items;
    } else {
      assert (p + q)[1..] == p[1..] + q;
      assert items + Adds(p[0]) + ItemsOf(p[1..]) == items + ItemsOf(p);
      assert FixFlags in p <==> p[0] == FixFlags || FixFlags in p[1..];
      SoundConcat(latest, items + Adds(p[0]), fixed || p[0].FixFlags?, p[1..], q);
    }
  }

  lemma {:induction false} TablesSound(latest: nat, items: set<Item>, fixed: bool, names: seq<string>)
    ensures Sound(latest, items, fixed, Tables(names))
    ensures forall n :: n in names ==> Table(n) in ItemsOf(Tables(names))
    decreases names
  {
    if names != [] {
      assert Tables(names)[1..] == Tables(names[1..]);
      TablesSound(latest, items + {Table(names[0])}, fixed, names[1..]);
    }
  }

  lemma {:induction false} ColumnsSound(latest: nat, items: set<Item>, fixed: bool, table: string, names: seq<string>)
    requires Table(table) in items
    ensures Sound(latest, items, fixed, Columns(table, names))
    ensures forall n :: n in names ==> Column(table, n) in ItemsOf(Columns(table, names))
    decreases names
  {
    if names != [] {
      assert Columns(table, names)[1..] == Columns(table, names[1..]);
      ColumnsSound(latest, items + {Column(table, names[0])}, fixed, table, names[1..]);
    }
  }

  // ---- The migrations are such plans ----

  lemma {:induction false} AllGrows(m: nat, n: nat)
    requires m <= n
    ensures ItemsOf(All(m)) <= ItemsOf(All(n))
    decreases n - m
  {
    if m < n {
      ItemsOfConcat(All(m), Migrations(m + 1));
      AllGrows(m + 1, n);
    }
  }

  lemma BaseTablesExist(n: nat)
    requires 1 <= n
    ensures Table("applications") in ItemsOf(All(n)) && Table("secret_audit") in ItemsOf(All(n))
    ensures Table("deployments") in ItemsOf(All(n))
  {
    AllGrows(1, n);
    assert All(1) == [] + Migrations(1) == Migrations(1) by {
      assert All(0) == [];
    }
    TablesSound(0, {}, false, BASE_TABLES);
    assert BASE_TABLES[2] == "secret_audit" && BASE_TABLES[4] == "applications" && BASE_TABLES[6] == "deployments";
  }

  lemma FlagColumnsExist(n: nat)
    requires 2 <= n
    ensures PUSH in ItemsOf(All(n)) && CONFIRM in ItemsOf(All(n))
  {
    hide Columns, Sound, ItemsOf;
    AllGrows(2, n);
    var a, b, c, d := Columns("applications", ["runtime"]), Columns("applications", APPLICATION_COLUMNS),
      Columns("secret_audit", ["target"]), Columns("deployments", DEPLOYMENT_COLUMNS);
    assert All(2) == All(1) + V2();
    ItemsOfConcat(All(1), V2());
    ItemsOfConcat(a + b + c, d);
    ItemsOfConcat(a + b, c);
    ItemsOfConcat(a, b);
    ColumnsSound(0, {Table("applications")}, false, "applications", APPLICATION_COLUMNS);
    assert APPLICATION_COLUMNS[0] == "deploy_on_push" && APPLICATION_COLUMNS[1] == "require_confirmation";
  }

  lemma V2Sound(latest: nat, items: set<Item>, fixed: bool)
    requires Table("applications") in items && Table("secret_audit") in items && Table("deployments") in items
    ensures Sound(latest, items, fixed, V2())
  {
    hide Columns, Sound, ItemsOf;
    var a, b, c, d := Columns("applications", ["runtime"]), Columns("applications", APPLICATION_COLUMNS),
      Columns("secret_audit", ["target"]), Columns("deployments", DEPLOYMENT_COLUMNS);
    ColumnsSound(latest, items, fixed, "applications", ["runtime"]);
    ColumnsSound(latest, items + ItemsOf(a), fixed || FixFlags in a, "applications", APPLICATION_COLUMNS);
    SoundConcat(latest, items, fixed, a, b);
    ColumnsSound(latest, items + ItemsOf(a + b), fixed || FixFlags in (a + b), "secret_audit", ["target"]);
    SoundConcat(latest, items, fixed, a + b, c);
    ColumnsSound(latest, items + ItemsOf(a + b + c), fixed || FixFlags in (a + b + c), "deployments", DEPLOYMENT_COLUMNS);
    SoundConcat(latest, items, fixed, a + b + c, d);
  }

  lemma TablesThen(latest: nat, items: set<Item>, fixed: bool, names: seq<string>, rest: seq<Stmt>)
    requires Sound(latest, items + ItemsOf(Tables(names)), fixed, rest)
    ensures Sound(latest, items, fixed, Tables(names) + rest)
  {
    TablesSound(latest, items, fixed, names);
    SoundMonotone(latest, items + ItemsOf(Tables(names)), items + ItemsOf(Tables(names)), fixed, fixed || FixFlags in Tables(names), rest);
    SoundConcat(latest, items, fixed, Tables(names), rest);
  }

  lemma V3Sound(latest: nat, items: set<Item>)
    requires PUSH in items && CONFIRM in items && Table("deployments") in items
    ensures Sound(latest, items, false, V3())
  {
    var names := ["deployment_events", "alerts"];
    TablesSound(latest, items, false, names);
    assert names[0] == "deployment_events" && names[1] == "alerts";
    var more := items + ItemsOf(Tables(names));
    var rest := [IndexOn("deployment_events_deployment_id", "deployment_events"), IndexOn("alerts_application_id", "alerts"),
                 FixFlags, Ensure(ACTIVE_INDEX, {Table("deployments")})];
    V3TailSound(latest, more);
    TablesThen(latest, items, false, names, rest);
  }

  lemma V3TailSound(latest: nat, items: set<Item>)
    requires PUSH in items && CONFIRM in items && Table("deployments") in items
    requires Table("deployment_events") in items && Table("alerts") in items
    ensures Sound(latest, items, false, [IndexOn("deployment_events_deployment_id", "deployment_events"), IndexOn("alerts_application_id", "alerts"),
                                 FixFlags, Ensure(ACTIVE_INDEX, {Table("deployments")})])
  {
    hide ItemsOf, All;
    var d := Ensure(ACTIVE_INDEX, {Table("deployments")});
    var i, j := IndexOn("deployment_events_deployment_id", "deployment_events"), IndexOn("alerts_application_id", "alerts");
    var p := [i, j, FixFlags, d];
    assert p[1..] == [j, FixFlags, d] && [j, FixFlags, d][1..] == [FixFlags, d] && [FixFlags, d][1..] == [d] && [d][1..] == [];
    var more := items + {i.item} + {j.item};
    assert Sound(latest, more, true, [d]);
    assert more + Adds(FixFlags) == more;
    assert Sound(latest, more, false, [FixFlags, d]);
    assert Sound(latest, items + {i.item}, false, [j, FixFlags, d]);
  }

  lemma IndexSound(latest: nat, items: set<Item>, names: seq<string>, index: string, table: string)
    requires table in names
    ensures Sound(latest, items, true, Tables(names) + [IndexOn(index, table)])
  {
    TablesSound(latest, items, true, names);
    TablesThen(latest, items, true, names, [IndexOn(index, table)]);
  }

  lemma V10Sound(latest: nat, items: set<Item>)
    ensures Sound(latest, items, true, V10())
  {
    var names := ["cloudflare_config"];
    TablesSound(latest, items, true, names);
    assert names[0] == "cloudflare_config";
    TablesThen(latest, items, true, names, [Ensure(DefaultRow("cloudflare_config"), {Table("cloudflare_config")})]);
  }

  lemma MigrationSound(latest: nat, n: nat)
    requires 1 <= n <= LATEST
    ensures Sound(latest, ItemsOf(All(n - 1)), n > 3, Migrations(n))
  {
    hide Sound, ItemsOf, All, V2, V3, V10, Tables;
    var items := ItemsOf(All(n - 1));
    match n
    case 1 => TablesSound(latest, items, false, BASE_TABLES);
    case 2 => BaseTablesExist(1); V2Sound(latest, items, false);
    case 3 => BaseTablesExist(2); FlagColumnsExist(2); V3Sound(latest, items);
    case 4 =>
      assert ["application_health", "route_probes"][1] == "route_probes";
      IndexSound(latest, items, ["application_health", "route_probes"], "route_probes_checked_at", "route_probes");
    case 5 => TablesSound(latest, items, true, ["webhook_deliveries"]);
    case 6 => TablesSound(latest, items, true, ["identity_providers", "users", "federated_identities", "role_bindings", "identity_audit"]);
    case 7 =>
      assert ["nodes"][0] == "nodes";
      IndexSound(latest, items, ["nodes"], "nodes_last_seen_at", "nodes");
    case 8 => TablesSound(latest, items, true, ["webhook_rate_limits"]);
    case 9 => TablesSound(latest, items, true, ["unlock_attempts"]);
    case 10 => V10Sound(latest, items);
  }

  lemma {:induction false} PlanFromSound(n: nat, latest: nat, items: set<Item>)
    requires 1 <= n <= latest + 1 <= LATEST + 1 && ItemsOf(All(n - 1)) <= items
    ensures Sound(latest, items, n > 3, PlanFrom(n, latest))
    decreases latest + 1 - n
  {
    hide Migrations, V1, V2, V3, V4, V6, V7, V10;
    if n <= latest {
      MigrationSound(latest, n);
      SoundMonotone(latest, ItemsOf(All(n - 1)), items, n > 3, n > 3, Migrations(n));
      ItemsOfConcat(All(n - 1), Migrations(n));
      var next := items + ItemsOf(Migrations(n));
      var fixed := n > 3 || FixFlags in Migrations(n);
      PlanFromSound(n + 1, latest, next);
      ThirdMigrationFixes();
      SoundMonotone(latest, next, next, n + 1 > 3, fixed, PlanFrom(n + 1, latest));
      assert All(n) == All(n - 1) + Migrations(n);
      var rest := [SetVersion(n)] + PlanFrom(n + 1, latest);
      assert rest[1..] == PlanFrom(n + 1, latest);
      assert next + Adds(SetVersion(n)) == next;
      assert Sound(latest, next, fixed, rest);
      SoundConcat(latest, items, n > 3, Migrations(n), rest);
    }
  }

  lemma ThirdMigrationFixes()
    ensures FixFlags in Migrations(3)
  {
    hide Tables;
    assert V3()[|Tables(["deployment_events", "alerts"])| + 2] == FixFlags;
  }

  lemma {:induction false} AllSound(latest: nat, n: nat)
    requires n <= LATEST
    ensures Sound(latest, {}, false, All(n))
    ensures n >= 3 ==> FixFlags in All(n)
  {
    hide Migrations, V1, V2, V3, V4, V6, V7, V10;
    if n > 0 {
      AllSound(latest, n - 1);
      MigrationSound(latest, n);
      ThirdMigrationFixes();
      assert {} + ItemsOf(All(n - 1)) == ItemsOf(All(n - 1));
      SoundMonotone(latest, ItemsOf(All(n - 1)), ItemsOf(All(n - 1)), n > 3, false || FixFlags in All(n - 1), Migrations(n));
      SoundConcat(latest, {}, false, All(n - 1), Migrations(n));
    }
  }

  // ---- Databases that migrations have been at work on ----

  ghost predicate WellFormed(db: Db, latest: nat) {
    && 3 <= latest <= LATEST && db.version <= latest
    && ItemsOf(All(db.version)) <= db.items <= ItemsOf(All(latest))
    && (db.version >= 3 ==> NoBoth(db))
    && (ACTIVE_INDEX in db.items ==> OneActive(db))
  }

  /** Any database without a version, however far an unversioned program or a crashed
      first attempt has brought it. */
  lemma UnversionedIsWellFormed(db: Db, latest: nat)
    requires db.version == 0 && 3 <= latest <= LATEST && db.items <= ItemsOf(All(latest))
    requires ACTIVE_INDEX in db.items ==> OneActive(db)
    ensures WellFormed(db, latest)
  {
  }

  lemma PlanSound(db: Db, latest: nat)
    requires WellFormed(db, latest)
    ensures Sound(latest, db.items, db.version >= 3, Plan(db, latest))
  {
    hide Migrations, All, PlanFrom, ItemsOf;
    if db.version == 0 && Table("settings") in db.items {
      AllSound(latest, latest);
      var end := [SetVersion(latest)];
      assert {} + ItemsOf(All(latest)) == ItemsOf(All(latest));
      SoundConcat(latest, {}, false, All(latest), end);
      SoundMonotone(latest, {}, db.items, false, false, All(latest) + end);
    } else {
      PlanFromSound(db.version + 1, latest, db.items);
    }
  }

  /** The flags every application has in the end: what its columns hold, true for a
      column it does not have yet, and no push deployment where both would be on. */
  ghost function FlagsInTheEnd(db: Db): map<nat, Flags> {
    map a | a in db.apps ::
      var confirm := CONFIRM in db.items ==> db.apps[a].confirm;
      Flags((PUSH in db.items ==> db.apps[a].push) && !confirm, confirm)
  }

  /** What holds between two statements of an attempt. */
  ghost predicate Midway(db: Db, latest: nat, fixed: bool) {
    && WellFormed(db, latest)
    && (fixed ==> NoBoth(db) && {PUSH, CONFIRM} <= db.items)
  }

  lemma ExecKeeps(db: Db, latest: nat, fixed: bool, s: Stmt)
    requires Midway(db, latest, fixed) && Ready(latest, db.items, fixed, s) && Adds(s) <= ItemsOf(All(latest))
    ensures Exec(db, s).None? ==> !OneActive(db)
    ensures Exec(db, s).Some? ==> Midway(Exec(db, s).value, latest, fixed || s.FixFlags?)
    ensures Exec(db, s).Some? ==> Exec(db, s).value.active == db.active
    ensures Exec(db, s).Some? ==> Exec(db, s).value.items == db.items + Adds(s)
  {
    hide Migrations, All, ItemsOf;
    FlagColumnsOf(db.version);
    match s
    case Ensure(item, needs) =>
      if item in db.items {
        assert db.items + {item} == db.items;
      }
    case _ => assert db.items + Adds(s) == db.items;
  }

  lemma ExecKeepsFlags(db: Db, latest: nat, fixed: bool, s: Stmt)
    requires Ready(latest, db.items, fixed, s) && Exec(db, s).Some?
    ensures FlagsInTheEnd(Exec(db, s).value) == FlagsInTheEnd(db)
  {
    hide Migrations, All, ItemsOf;
  }

  lemma FlagColumnsOf(n: nat)
    ensures n >= 2 ==> PUSH in ItemsOf(All(n)) && CONFIRM in ItemsOf(All(n))
  {
    if n >= 2 {
      FlagColumnsExist(n);
    }
  }

  // ---- One attempt, interrupted after any number of statements or not at all ----

  lemma {:induction false} ExecuteKeeps(db: Db, latest: nat, fixed: bool, p: seq<Stmt>, k: nat)
    requires Midway(db, latest, fixed) && Sound(latest, db.items, fixed, p) && k <= |p|
    requires ItemsOf(p) <= ItemsOf(All(latest))
    ensures WellFormed(Execute(db, p[..k]).db, latest)
    ensures FlagsInTheEnd(Execute(db, p[..k]).db) == FlagsInTheEnd(db)
    ensures Execute(db, p[..k]).db.active == db.active
    ensures !Execute(db, p[..k]).ok ==> !OneActive(db)
    ensures Execute(db, p[..k]).ok ==> Execute(db, p[..k]).db.items == db.items + ItemsOf(p[..k])
    decreases k
  {
    hide Migrations, All, WellFormed, Midway, FlagsInTheEnd, Exec, Ready, Adds;
    MidwayIsWellFormed(db, latest, fixed);
    if k == 0 {
      assert p[..0] == [] && db.items + ItemsOf([]) == db.items;
    } else {
      var s, rest := p[0], p[1..];
      assert p[..k][0] == s && p[..k][1..] == rest[..k - 1];
      ExecKeeps(db, latest, fixed, s);
      match Exec(db, s)
      case None =>
      case Some(d) =>
        ExecKeepsFlags(db, latest, fixed, s);
        ExecuteKeeps(d, latest, fixed || s.FixFlags?, rest, k - 1);
        assert d.items + ItemsOf(rest[..k - 1]) == db.items + ItemsOf(p[..k]);
    }
  }

  lemma MidwayIsWellFormed(db: Db, latest: nat, fixed: bool)
    requires Midway(db, latest, fixed)
    ensures WellFormed(db, latest)
  {}

  lemma VersionAddsNothing(n: nat)
    ensures ItemsOf([SetVersion(n)]) == {}
  {
  }

  lemma {:induction false} PlanFromItems(n: nat, latest: nat)
    requires 1 <= n <= latest + 1
    ensures ItemsOf(All(n - 1)) + ItemsOf(PlanFrom(n, latest)) == ItemsOf(All(latest))
    decreases latest + 1 - n
  {
    hide Migrations, ItemsOf;
    if n <= latest {
      PlanFromItems(n + 1, latest);
      assert All(n) == All(n - 1) + Migrations(n);
      ItemsOfConcat(All(n - 1), Migrations(n));
      VersionAddsNothing(n);
      ItemsOfConcat([SetVersion(n)], PlanFrom(n + 1, latest));
      ItemsOfConcat(Migrations(n), [SetVersion(n)] + PlanFrom(n + 1, latest));
    } else {
      NothingAddsNothing();
    }
  }

  lemma NothingAddsNothing()
    ensures ItemsOf([]) == {}
  {
  }

  lemma PlanItems(db: Db, latest: nat)
    requires WellFormed(db, latest)
    ensures db.items + ItemsOf(Plan(db, latest)) == ItemsOf(All(latest))
    ensures ItemsOf(Plan(db, latest)) <= ItemsOf(All(latest))
  {
    hide Migrations, All;
    if db.version == 0 && Table("settings") in db.items {
      ItemsOfConcat(All(latest), [SetVersion(latest)]);
      assert ItemsOf([SetVersion(latest)]) == {};
    } else {
      PlanFromItems(db.version + 1, latest);
    }
  }

  /** The version recorded once p has been executed. */
  ghost function LastVersion(v: nat, p: seq<Stmt>): nat
    decreases p
  {
    if p == [] then v else LastVersion(if p[0].SetVersion? then p[0].n else v, p[1..])
  }

  lemma {:induction false} LastVersionConcat(v: nat, p: seq<Stmt>, q: seq<Stmt>)
    ensures LastVersion(v, p + q) == LastVersion(LastVersion(v, p), q)
    decreases p
  {
    if p == [] {
      assert p + q == q;
    } else {
      assert (p + q)[1..] == p[1..] + q;
      LastVersionConcat(if p[0].SetVersion? then p[0].n else v, p[1..], q);
    }
  }

  lemma {:induction false} PlanFromVersion(n: nat, latest: nat, v: nat)
    requires 1 <= n <= latest
    ensures LastVersion(v, PlanFrom(n, latest)) == latest
    decreases latest - n
  {
    hide Migrations;
    var rest := [SetVersion(n)] + PlanFrom(n + 1, latest);
    assert rest[1..] == PlanFrom(n + 1, latest);
    LastVersionConcat(v, Migrations(n), rest);
    if n < latest {
      PlanFromVersion(n + 1, latest, n);
    }
  }

  lemma PlanVersion(db: Db, latest: nat)
    requires db.version <= latest
    ensures LastVersion(db.version, Plan(db, latest)) == latest
  {
    hide Migrations, All;
    if db.version == 0 && Table("settings") in db.items {
      LastVersionConcat(db.version, All(latest), [SetVersion(latest)]);
    } else if db.version < latest {
      PlanFromVersion(db.version + 1, latest, db.version);
    }
  }

  lemma {:induction false} ExecuteVersion(db: Db, p: seq<Stmt>)
    requires Execute(db, p).ok
    ensures Execute(db, p).db.version == LastVersion(db.version, p)
    decreases p
  {
    if p != [] {
      ExecuteVersion(Exec(db, p[0]).value, p[1..]);
    }
  }

  /** An attempt that crashes once k statements are done, or ends at an error before. */
  function Attempt(db: Db, latest: nat, k: nat): Outcome {
    Execute(db, if k < |Plan(db, latest)| then Plan(db, latest)[..k] else Plan(db, latest))
  }

  lemma AttemptKeeps(db: Db, latest: nat, k: nat)
    requires WellFormed(db, latest)
    ensures WellFormed(Attempt(db, latest, k).db, latest)
    ensures FlagsInTheEnd(Attempt(db, latest, k).db) == FlagsInTheEnd(db)
    ensures Attempt(db, latest, k).db.active == db.active
    ensures !Attempt(db, latest, k).ok ==> !OneActive(db)
  {
    hide Migrations, All, FlagsInTheEnd, Exec, Execute, Sound, Plan;
    PlanSound(db, latest);
    PlanItems(db, latest);
    FlagColumnsOf(db.version);
    var p := Plan(db, latest);
    assert p[..|p|] == p;
    ExecuteKeeps(db, latest, db.version >= 3, p, if k < |p| then k else |p|);
  }

  // ---- Whole histories of attempts ----

  /** What migrating db to version n comes to. */
  ghost function Migrated(db: Db, n: nat): Db {
    Db(ItemsOf(All(n)), n, FlagsInTheEnd(db), db.active)
  }

  lemma FullAttempt(db: Db, latest: nat)
    requires WellFormed(db, latest) && Execute(db, Plan(db, latest)).ok
    ensures Execute(db, Plan(db, latest)).db == Migrated(db, latest)
    ensures NoBoth(Migrated(db, latest)) && OneActive(db)
    ensures var d := Execute(db, Plan(db, latest)).db;
            && d.version == latest && d.active == db.active && d.apps.Keys == db.apps.Keys
            && forall a :: a in db.apps ==>
                 && (d.apps[a].confirm <==> (Column("applications", "require_confirmation") in db.items ==> db.apps[a].confirm))
                 && (d.apps[a].push <==> (Column("applications", "deploy_on_push") in db.items ==> db.apps[a].push) && !d.apps[a].confirm)
  {
    hide Migrations, All, Exec, Execute, Sound, Plan, ItemsOf, LastVersion;
    PlanSound(db, latest);
    PlanItems(db, latest);
    PlanVersion(db, latest);
    FlagColumnsOf(db.version);
    FlagColumnsOf(latest);
    var p := Plan(db, latest);
    assert p[..|p|] == p;
    ExecuteKeeps(db, latest, db.version >= 3, p, |p|);
    ExecuteVersion(db, p);
    var d := Execute(db, p).db;
    assert NoBoth(d);
    assert d.apps == FlagsInTheEnd(d);
    ActiveIndexExists(latest);
  }

  lemma ActiveIndexExists(latest: nat)
    requires 3 <= latest
    ensures ACTIVE_INDEX in ItemsOf(All(latest))
  {
    hide V1, V2, V4, V6, V7, V10, Tables, Columns;
    AllGrows(3, latest);
    assert All(3) == All(2) + V3();
    ItemsOfConcat(All(2), V3());
    LastItem(V3());
  }

  lemma LastItem(p: seq<Stmt>)
    requires p != [] && p[|p| - 1].Ensure?
    ensures p[|p| - 1].item in ItemsOf(p)
  {
    ItemsOfConcat(p[..|p| - 1], [p[|p| - 1]]);
    assert p == p[..|p| - 1] + [p[|p| - 1]];
  }

  /** The database after attempts that crashed after ks[0], ks[1], ... statements. */
  function Attempts(db: Db, latest: nat, ks: seq<nat>): Db
    decreases ks
  {
    if ks == [] then db else Attempts(Attempt(db, latest, ks[0]).db, latest, ks[1..])
  }

  lemma {:induction false} AttemptsKeep(db: Db, latest: nat, ks: seq<nat>)
    requires WellFormed(db, latest)
    ensures WellFormed(Attempts(db, latest, ks), latest)
    ensures FlagsInTheEnd(Attempts(db, latest, ks)) == FlagsInTheEnd(db) && Attempts(db, latest, ks).active == db.active
    decreases ks
  {
    hide WellFormed, FlagsInTheEnd, Attempt;
    if ks != [] {
      AttemptKeeps(db, latest, ks[0]);
      AttemptsKeep(Attempt(db, latest, ks[0]).db, latest, ks[1..]);
    }
  }

  /** However often and wherever earlier attempts crashed, the next one that is let
      through succeeds exactly on data with at most one active row per application, and
      leaves what an uninterrupted migration of the original database would have left. */
  lemma CrashesDoNotMatter(db: Db, latest: nat, ks: seq<nat>)
    requires WellFormed(db, latest)
    ensures var d := Attempts(db, latest, ks); Execute(d, Plan(d, latest)).ok <==> OneActive(db)
    ensures var d := Attempts(db, latest, ks); OneActive(db) ==> Execute(d, Plan(d, latest)).db == Migrated(db, latest)
    ensures OneActive(db) ==> NoBoth(Migrated(db, latest))
  {
    hide WellFormed, FlagsInTheEnd, Plan, Execute, ItemsOf, All;
    AttemptsKeep(db, latest, ks);
    var d := Attempts(db, latest, ks);
    AttemptKeeps(d, latest, |Plan(d, latest)|);
    if Execute(d, Plan(d, latest)).ok {
      FullAttempt(d, latest);
    }
  }

  // ---- The running program on top ----

  datatype Event =
    | Start(statements: nat)                                        // a process start that crashes, or not
    | Create(id: nat, flags: Flags)
    | Automate(id: nat, flags: Flags)
    | SetActive(id: nat, count: nat)                                // the job queue

  datatype Life = Life(db: Db, up: bool)

  /** Applications change only while a process runs; both calls that write the flags
      refuse the forbidden pair, and the unique index refuses a second active row. */
  function Next(l: Life, latest: nat, e: Event): Life {
    match e
    case Start(k) => Life(Attempt(l.db, latest, k).db, Attempt(l.db, latest, k).ok && k >= |Plan(l.db, latest)|)
    case Create(id, flags) =>
      if !l.up || id in l.db.apps || (flags.push && flags.confirm) then l
      else l.(db := l.db.(apps := l.db.apps[id := flags]))
    case Automate(id, flags) =>
      if !l.up || id !in l.db.apps || (flags.push && flags.confirm) then l
      else l.(db := l.db.(apps := l.db.apps[id := flags]))
    case SetActive(id, count) =>
      if !l.up || (count > 1 && ACTIVE_INDEX in l.db.items) then l else l.(db := l.db.(active := l.db.active[id := count]))
  }

  function Run(l: Life, latest: nat, es: seq<Event>): Life
    decreases es
  {
    if es == [] then l else Run(Next(l, latest, es[0]), latest, es[1..])
  }

  ghost predicate Inv(l: Life, latest: nat) {
    && WellFormed(l.db, latest)
    && (l.up ==> l.db.items == ItemsOf(All(latest)) && l.db.version == latest)
  }

  lemma NextKeepsInv(l: Life, latest: nat, e: Event)
    requires Inv(l, latest)
    ensures Inv(Next(l, latest, e), latest)
  {
    hide Migrations, All, ItemsOf, Plan, Execute, FlagsInTheEnd;
    match e
    case Start(k) =>
      AttemptKeeps(l.db, latest, k);
      if Attempt(l.db, latest, k).ok && k >= |Plan(l.db, latest)| {
        FullAttempt(l.db, latest);
      }
    case SetActive(id, count) => ActiveIndexExists(latest);
    case _ =>
  }

  /** Whenever a process is up, the schema is the latest, no application has both flags
      and none has two active rows: whatever was created, changed, restarted or crashed. */
  lemma {:induction false} UpMeansMigrated(l: Life, latest: nat, es: seq<Event>)
    requires Inv(l, latest)
    ensures Inv(Run(l, latest, es), latest)
    ensures var r := Run(l, latest, es); r.up ==> r.db.items == ItemsOf(All(latest)) && r.db.version == latest && NoBoth(r.db) && OneActive(r.db)
    decreases es
  {
    hide Migrations, All, ItemsOf, Next;
    if es == [] {
      ActiveIndexExists(latest);
    } else {
      NextKeepsInv(l, latest, es[0]);
      UpMeansMigrated(Next(l, latest, es[0]), latest, es[1..]);
    }
  }

  /** What the two calls that write the flags do: nothing while no process is up or when
      both flags are asked for; else exactly the flags asked for, for that one application. */
  lemma FlagWritesExactly(l: Life, latest: nat, id: nat, flags: Flags)
    ensures var z := Next(l, latest, Create(id, flags));
            if l.up && id !in l.db.apps && !(flags.push && flags.confirm)
            then z == Life(Db(l.db.items, l.db.version, l.db.apps[id := flags], l.db.active), l.up) else z == l
    ensures var z := Next(l, latest, Automate(id, flags));
            if l.up && id in l.db.apps && !(flags.push && flags.confirm)
            then z == Life(Db(l.db.items, l.db.version, l.db.apps[id := flags], l.db.active), l.up) else z == l
  {
  }

  // ---- The schema, name by name ----

  function TableItems(names: seq<string>): set<Item> {
    set n | n in names :: Table(n)
  }

  function ColumnItems(table: string, names: seq<string>): set<Item> {
    set n | n in names :: Column(table, n)
  }

  lemma {:induction false} ItemsOfTables(names: seq<string>)
    ensures ItemsOf(Tables(names)) == TableItems(names)
  {
    if names != [] {
      assert Tables(names)[1..] == Tables(names[1..]);
      ItemsOfTables(names[1..]);
      assert names == [names[0]] + names[1..];
      assert TableItems(names) == {Table(names[0])} + TableItems(names[1..]);
    }
  }

  lemma {:induction false} ItemsOfColumns(table: string, names: seq<string>)
    ensures ItemsOf(Columns(table, names)) == ColumnItems(table, names)
  {
    if names != [] {
      assert Columns(table, names)[1..] == Columns(table, names[1..]);
      ItemsOfColumns(table, names[1..]);
      assert names == [names[0]] + names[1..];
      assert ColumnItems(table, names) == {Column(table, names[0])} + ColumnItems(table, names[1..]);
    }
  }

  lemma ItemsOfOne(s: Stmt)
    ensures ItemsOf([s]) == Adds(s)
  {
  }

  lemma ItemsOfTablesAnd(names: seq<string>, s: Stmt)
    ensures ItemsOf(Tables(names) + [s]) == TableItems(names) + Adds(s)
  {
    ItemsOfConcat(Tables(names), [s]);
    ItemsOfTables(names);
    ItemsOfOne(s);
  }

  lemma SchemaOfV2()
    ensures ItemsOf(V2())
            == ColumnItems("applications", ["runtime"])
               + ColumnItems("applications", ["deploy_on_push", "require_confirmation", "auto_rollback", "github_installation_id", "health_endpoint"])
               + ColumnItems("secret_audit", ["target"])
               + ColumnItems("deployments", [
                   "action", "requested_ref", "source_revision", "source_fingerprint", "artifact_digest", "runtime", "internal_port",
                   "health_endpoint", "manifest", "configuration_digest", "failure_stage", "failure_code", "failure_detail", "attempt",
                   "heartbeat_at", "lease_expires_at", "cancellation_requested_at", "queue_duration_ms", "source_duration_ms",
                   "build_duration_ms", "start_duration_ms", "health_duration_ms", "route_duration_ms", "current_stage"])
  {
    hide ItemsOf, Columns, ColumnItems;
    var a, b, c, d := Columns("applications", ["runtime"]), Columns("applications", APPLICATION_COLUMNS),
      Columns("secret_audit", ["target"]), Columns("deployments", DEPLOYMENT_COLUMNS);
    ItemsOfConcat(a + b + c, d);
    ItemsOfConcat(a + b, c);
    ItemsOfConcat(a, b);
    ItemsOfColumns("applications", ["runtime"]);
    ItemsOfColumns("applications", APPLICATION_COLUMNS);
    ItemsOfColumns("secret_audit", ["target"]);
    ItemsOfColumns("deployments", DEPLOYMENT_COLUMNS);
  }

  lemma SchemaOfV3()
    ensures ItemsOf(V3())
            == TableItems(["deployment_events", "alerts"])
               + {Index("deployment_events_deployment_id"), Index("alerts_application_id"), Index("one_active_deployment_per_application")}
  {
    hide Tables, TableItems;
    var names := ["deployment_events", "alerts"];
    var i, j, d := IndexOn("deployment_events_deployment_id", "deployment_events"), IndexOn("alerts_application_id", "alerts"),
      Ensure(ACTIVE_INDEX, {Table("deployments")});
    ItemsOfConcat(Tables(names), [i, j, FixFlags, d]);
    ItemsOfTables(names);
    assert [i, j, FixFlags, d] == [i] + ([j] + ([FixFlags] + [d]));
    ItemsOfConcat([i], [j] + ([FixFlags] + [d]));
    ItemsOfConcat([j], [FixFlags] + [d]);
    ItemsOfConcat([FixFlags], [d]);
    ItemsOfOne(i);
    ItemsOfOne(j);
    ItemsOfOne(FixFlags);
    ItemsOfOne(d);
  }

  lemma SchemaOfTheRest()
    ensures ItemsOf(V1()) == TableItems(["settings", "secrets", "secret_audit", "application_configuration", "applications",
                                         "automation_settings", "deployments"])
    ensures ItemsOf(V4()) == TableItems(["application_health", "route_probes"]) + {Index("route_probes_checked_at")}
    ensures ItemsOf(Tables(["webhook_deliveries"])) == TableItems(["webhook_deliveries"])
    ensures ItemsOf(V6()) == TableItems(["identity_providers", "users", "federated_identities", "role_bindings", "identity_audit"])
    ensures ItemsOf(V7()) == TableItems(["nodes"]) + {Index("nodes_last_seen_at")}
    ensures ItemsOf(Tables(["webhook_rate_limits"])) == TableItems(["webhook_rate_limits"])
    ensures ItemsOf(Tables(["unlock_attempts"])) == TableItems(["unlock_attempts"])
    ensures ItemsOf(V10()) == TableItems(["cloudflare_config"]) + {DefaultRow("cloudflare_config")}
  {
    hide Tables, TableItems, ItemsOf;
    ItemsOfTables(BASE_TABLES);
    ItemsOfTablesAnd(["application_health", "route_probes"], IndexOn("route_probes_checked_at", "route_probes"));
    ItemsOfTables(["webhook_deliveries"]);
    ItemsOfTables(["identity_providers", "users", "federated_identities", "role_bindings", "identity_audit"]);
    ItemsOfTablesAnd(["nodes"], IndexOn("nodes_last_seen_at", "nodes"));
    ItemsOfTables(["webhook_rate_limits"]);
    ItemsOfTables(["unlock_attempts"]);
    ItemsOfTablesAnd(["cloudflare_config"], Ensure(DefaultRow("cloudflare_config"), {Table("cloudflare_config")}));
  }

  lemma AllStep(n: nat)
    requires n > 0
    ensures ItemsOf(All(n)) == ItemsOf(All(n - 1)) + ItemsOf(Migrations(n))
  {
    hide Migrations;
    ItemsOfConcat(All(n - 1), Migrations(n));
  }

  /** The tables, columns, indexes and default row of schema version 10, all of them and
      no others. */
  lemma SchemaExactly(latest: nat)
    requires latest == 10
    ensures ItemsOf(All(latest))
            == TableItems(["settings", "secrets", "secret_audit", "application_configuration", "applications", "automation_settings", "deployments"])
               + ColumnItems("applications", ["runtime"])
               + ColumnItems("applications", ["deploy_on_push", "require_confirmation", "auto_rollback", "github_installation_id", "health_endpoint"])
               + ColumnItems("secret_audit", ["target"])
               + ColumnItems("deployments", [
                   "action", "requested_ref", "source_revision", "source_fingerprint", "artifact_digest", "runtime", "internal_port",
                   "health_endpoint", "manifest", "configuration_digest", "failure_stage", "failure_code", "failure_detail", "attempt",
                   "heartbeat_at", "lease_expires_at", "cancellation_requested_at", "queue_duration_ms", "source_duration_ms",
                   "build_duration_ms", "start_duration_ms", "health_duration_ms", "route_duration_ms", "current_stage"])
               + TableItems(["deployment_events", "alerts"])
               + {Index("deployment_events_deployment_id"), Index("alerts_application_id"), Index("one_active_deployment_per_application")}
               + TableItems(["application_health", "route_probes"]) + {Index("route_probes_checked_at")}
               + TableItems(["webhook_deliveries"])
               + TableItems(["identity_providers", "users", "federated_identities", "role_bindings", "identity_audit"])
               + TableItems(["nodes"]) + {Index("nodes_last_seen_at")}
               + TableItems(["webhook_rate_limits"]) + TableItems(["unlock_attempts"])
               + TableItems(["cloudflare_config"]) + {DefaultRow("cloudflare_config")}
  {
    hide ItemsOf, All, TableItems, ColumnItems, V1, V2, V3, V4, V6, V7, V10, Tables;
    SchemaOfFive(5);
    AllStep(6);
    AllStep(7);
    AllStep(8);
    AllStep(9);
    AllStep(10);
    SchemaOfV2();
    SchemaOfV3();
    SchemaOfTheRest();
  }

  lemma SchemaOfFive(five: nat)
    requires five == 5
    ensures ItemsOf(All(five)) == ItemsOf(V1()) + ItemsOf(V2()) + ItemsOf(V3()) + ItemsOf(V4()) + ItemsOf(Tables(["webhook_deliveries"]))
  {
    hide ItemsOf, All, V1, V2, V3, V4, Tables;
    AllStep(1);
    AllStep(2);
    AllStep(3);
    AllStep(4);
    AllStep(5);
    NothingInAll();
  }

  lemma NothingInAll()
    ensures ItemsOf(All(0)) == {}
  {
  }

  // ---- The procedure itself ----

  /** `latest` is 10 in the source. */
  class Database {
    var db: Db

    /** One migration: its statements in order, up to the first error. */
    method Apply(n: nat) returns (ok: bool)
      modifies this
      ensures Outcome(db, ok) == Execute(old(db), Migrations(n))
    {
      hide Migrations, Exec;
      var p := Migrations(n);
      var i := 0;
      assert p[0..] == p;
      while i < |p|
        invariant i <= |p|
        invariant Execute(db, p[i..]) == Execute(old(db), p)
      {
        assert p[i..][0] == p[i] && p[i..][1..] == p[i + 1..];
        match Exec(db, p[i])
        case None => return false;
        case Some(d) => db := d;
        i := i + 1;
      }
      return true;
    }

    method Migrate(latest: nat) returns (ok: bool)
      modifies this
      ensures Outcome(db, ok) == Execute(old(db), Plan(old(db), latest))
      ensures old(db).version > latest ==> ok && db == old(db)
    {
      hide Migrations, Exec, ItemsOf;
      var version := db.version;
      if version == 0 && Table("settings") in db.items {
        var n := 1;
        while n <= latest
          invariant 1 <= n <= latest + 1
          invariant Execute(old(db), All(n - 1)) == Outcome(db, true)
        {
          ExecuteConcat(old(db), All(n - 1), Migrations(n));
          AllStartsWith(n, latest, old(db), [SetVersion(latest)]);
          ok := Apply(n);
          if !ok {
            return false;
          }
          n := n + 1;
        }
        ExecuteConcat(old(db), All(latest), [SetVersion(latest)]);
        SetsVersion(db, latest, []);
        assert [SetVersion(latest)] + [] == [SetVersion(latest)];
        db := db.(version := latest);
        return true;
      }
      var n := version + 1;
      while n <= latest
        invariant version + 1 <= n && (n <= latest + 1 || n == version + 1)
        invariant Execute(db, PlanFrom(n, latest)) == Execute(old(db), PlanFrom(version + 1, latest))
      {
        ExecuteConcat(db, Migrations(n), [SetVersion(n)] + PlanFrom(n + 1, latest));
        ok := Apply(n);
        if !ok {
          return false;
        }
        SetsVersion(db, n, PlanFrom(n + 1, latest));
        db := db.(version := n);
        n := n + 1;
      }
      return true;
    }
  }

  lemma SetsVersion(db: Db, n: nat, rest: seq<Stmt>)
    ensures Execute(db, [SetVersion(n)] + rest) == Execute(db.(version := n), rest)
  {
    assert ([SetVersion(n)] + rest)[1..] == rest;
  }

  /** A migration that fails decides how the whole sequence of migrations ends. */
  lemma {:induction false} AllStartsWith(m: nat, n: nat, db: Db, end: seq<Stmt>)
    requires m <= n
    ensures !Execute(db, All(m)).ok ==> Execute(db, All(n) + end) == Execute(db, All(m))
    decreases n - m
  {
    hide Migrations, Exec;
    if m == n {
      ExecuteConcat(db, All(n), end);
    } else {
      ExecuteConcat(db, All(m), Migrations(m + 1));
      AllStartsWith(m + 1, n, db, end);
    }
  }
}
