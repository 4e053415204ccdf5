/**
 * The engine (`PeekEngine`): it looks a container up among the discovered ones by
 * exact id, builds a connection configuration from the container's published ports
 * and its `POSTGRES_*` environment, and drives the inspector through
 * connect, queries, disconnect. The configuration is built at two call sites,
 * each with its own copy of the fallback chain; both are modelled as written.
 */
module Engine {
  import opened Wrappers
  import opened Detector
  import opened Postgres
  import opened JsStrings

  const LocalHost: string := "localhost"
  const DefaultPort: int := 5432
  const DefaultUser: string := "postgres"
  const DefaultPassword: string := ""
  const DefaultDatabase: string := "postgres"
  const UserVar: string := "POSTGRES_USER"
  const PasswordVar: string := "POSTGRES_PASSWORD"
  const DatabaseVar: string := "POSTGRES_DB"

  /** The number of rows `getFullSchema` previews. */
  const FullSchemaPreviewLimit: int := 5

  /** `env[key]`: a name never declared and a name declared without `=` both read as undefined. */
  function Lookup(env: EnvMap, key: string): (v: Option<string>)
    ensures v.Some? <==> key in env && env[key].Some?
    ensures v.Some? ==> env[key] == v
  {
    if key in env then env[key] else None
  }

  /** A value JavaScript's `||` keeps: defined and not the empty string. */
  predicate Truthy(v: Option<string>)
  {
    v.Some? && v.value != ""
  }

  /** `a || b` on possibly undefined strings: truthy exactly when either operand is. */
  function Or(a: Option<string>, b: Option<string>): (r: Option<string>)
    ensures Truthy(r) <==> Truthy(a) || Truthy(b)
    ensures Truthy(a) ==> r == a
    ensures !Truthy(a) ==> r == b
  {
    if Truthy(a) then a else b
  }

  /** `a || b` with a string fallback: never empty when the fallback is not. */
  function OrElse(a: Option<string>, b: string): (r: string)
    ensures Truthy(a) ==> r == a.value
    ensures !Truthy(a) ==> r == b
    ensures b != "" ==> r != ""
  {
    if Truthy(a) then a.value else b
  }

  /** `ports[0] || 5432`: a missing or zero first port falls back to the default, so the port is never 0. */
  function FirstPortOr(ports: seq<int>): (p: int)
    ensures p != 0
    ensures |ports| > 0 && ports[0] != 0 ==> p == ports[0]
    ensures |ports| == 0 || ports[0] == 0 ==> p == DefaultPort
  {
    if |ports| > 0 && ports[0] != 0 then ports[0] else DefaultPort
  }

  /** The `ConnectionConfig` literal of `inspectContainer`. */
  function InspectConfig(container: DBContainerInfo, env: EnvMap): (c: ConnectionConfig)
    ensures c.host == LocalHost
    ensures |container.ports| > 0 && container.ports[0] != 0 ==> c.port == container.ports[0]
    ensures |container.ports| == 0 || container.ports[0] == 0 ==> c.port == DefaultPort
    ensures UserVar in env && Truthy(env[UserVar]) ==> c.user == env[UserVar].value
    ensures !(UserVar in env && Truthy(env[UserVar])) ==> c.user == DefaultUser
    ensures PasswordVar in env && Truthy(env[PasswordVar]) ==> c.password == Some(env[PasswordVar].value)
    ensures !(PasswordVar in env && Truthy(env[PasswordVar])) ==> c.password == Some(DefaultPassword)
    ensures DatabaseVar in env && Truthy(env[DatabaseVar]) ==> c.database == env[DatabaseVar].value
    ensures !(DatabaseVar in env && Truthy(env[DatabaseVar])) ==> c.database == c.user
  {
    ConnectionConfig(
      LocalHost,
      FirstPortOr(container.ports),
      OrElse(Lookup(env, UserVar), DefaultUser),
      Some(OrElse(Lookup(env, PasswordVar), DefaultPassword)),
      OrElse(Or(Lookup(env, DatabaseVar), Lookup(env, UserVar)), DefaultDatabase))
  }

  /** The `ConnectionConfig` literal of `getFullSchema`, where the container may be missing. */
  function SchemaConfig(container: Option<DBContainerInfo>, env: EnvMap): (c: ConnectionConfig)
    ensures c.host == LocalHost
    ensures c.port != 0
    ensures container.None? ==> c.port == DefaultPort
    ensures container.Some? ==> c == InspectConfig(container.value, env)
  {
    ConnectionConfig(
      LocalHost,
      if container.Some? then FirstPortOr(container.value.ports) else DefaultPort,
      OrElse(Lookup(env, UserVar), DefaultUser),
      Some(OrElse(Lookup(env, PasswordVar), DefaultPassword)),
      OrElse(Or(Lookup(env, DatabaseVar), Lookup(env, UserVar)), DefaultDatabase))
  }

  /**
   * The two copies of the fallback chain agree whenever the container was found;
   * without a container, `getFullSchema` builds what `inspectContainer` would build
   * for any container, except that the port is the default.
   */
  lemma ConfigSitesAgree(container: DBContainerInfo, env: EnvMap)
    ensures SchemaConfig(Some(container), env) == InspectConfig(container, env)
    ensures SchemaConfig(None, env) == InspectConfig(container, env).(port := DefaultPort)
    ensures SchemaConfig(None, env).port == DefaultPort
  {
  }

  /** The position of the first container with the given id, `|containers|` when there is none. */
  function FirstWithId(containers: seq<DBContainerInfo>, id: string): (k: nat)
    ensures k <= |containers|
    ensures k < |containers| ==> containers[k].id == id
    ensures forall j :: 0 <= j < k ==> containers[j].id != id
    decreases |containers|
  {
    if containers == [] then 0
    else if containers[0].id == id then 0
    else 1 + FirstWithId(containers[1..], id)
  }

  /** `containers.find(c => c.id === id)`: exact id equality, first match. */
  function FindById(containers: seq<DBContainerInfo>, id: string): (r: Option<DBContainerInfo>)
    ensures r.None? <==> forall i :: 0 <= i < |containers| ==> containers[i].id != id
    ensures r.Some? ==> r.value.id == id && r.value == containers[FirstWithId(containers, id)]
  {
    var k := FirstWithId(containers, id);
    if k < |containers| then Some(containers[k]) else None
  }

  /** A container is found by its own id, provided no earlier container carries the same id. */
  lemma FindOwnId(containers: seq<DBContainerInfo>, i: nat)
    requires i < |containers|
    requires forall j :: 0 <= j < i ==> containers[j].id != containers[i].id
    ensures FindById(containers, containers[i].id) == Some(containers[i])
  {
  }

  /** A discovered container's first port, when it has one, is always the one the configuration uses. */
  lemma DiscoveredPortUsed(listing: seq<RawContainer>, i: nat, env: EnvMap)
    requires GetDatabaseContainers(listing).Success?
    requires i < |GetDatabaseContainers(listing).value|
    ensures var c := GetDatabaseContainers(listing).value[i];
      InspectConfig(c, env).port == if |c.ports| > 0 then c.ports[0] else DefaultPort
  {
    var c := GetDatabaseContainers(listing).value[i];
    DiscoveryMembers(listing, c);
    var j :| 0 <= j < |listing| && ToInfo(listing[j]) == Success(c);
    assert c.ports == PublicPorts(listing[j].ports);
  }


  /** The database name falls back from `POSTGRES_DB` to `POSTGRES_USER` to "postgres". */
  lemma DatabasePrecedence(container: DBContainerInfo)
    ensures InspectConfig(container, map[UserVar := Some("alice"), DatabaseVar := Some("app")]).database == "app"
    ensures InspectConfig(container, map[UserVar := Some("alice")]).database == "alice"
    ensures InspectConfig(container, map[UserVar := Some("alice"), DatabaseVar := Some("")]).database == "alice"
    ensures InspectConfig(container, map[UserVar := None, DatabaseVar := Some("")]).database == DefaultDatabase
    ensures InspectConfig(container, map[]).database == DefaultDatabase
  {
  }

  /** The listing entry of the end-to-end example: `postgres:15`, named `/shop-db`, 5432 published on 54320. */
  function ShopContainer(): RawContainer
  {
    RawContainer("c0ffee", ["/shop-db"], "postgres:15", "running", [RawPort(5432, Some(54320))])
  }

  /** The example image is classified Postgres. */
  lemma ShopClassified()
    ensures Classify(ShopContainer().image) == Postgres
  {
    PostgresWins(ShopContainer().image);
  }

  /** The example name loses its leading `/`. */
  lemma ShopNamed()
    ensures ContainerName(ShopContainer().names) == Success("shop-db")
  {
    assert RemoveFirst("/shop-db", '/') == "shop-db";
  }

  /** The example container's record: the leading `/` dropped, classified Postgres, its one published port. */
  lemma ShopRecord()
    ensures ToInfo(ShopContainer())
         == Success(DBContainerInfo("c0ffee", "shop-db", "postgres:15", Postgres, "running", [54320]))
  {
    var raw := ShopContainer();
    ShopClassified();
    ShopNamed();
    assert PublicPorts(raw.ports) == [54320] by {
      assert raw.ports[1..] == [];
    }
  }

  /** The example container is discovered as a Postgres container named `shop-db` with port 54320. */
  lemma ShopDiscovery()
    ensures GetDatabaseContainers([ShopContainer()])
         == Success([DBContainerInfo("c0ffee", "shop-db", "postgres:15", Postgres, "running", [54320])])
  {
    ShopRecord();
    DiscoverSingle(ShopContainer());
  }

  /** Three `NAME=value` entries, as the example declares them: the general `EnvOfPairs` for three pairs. */
  lemma ThreeEntries(k1: string, v1: string, k2: string, v2: string, k3: string, v3: string)
    requires '=' !in k1 && '=' !in v1 && '=' !in k2 && '=' !in v2 && '=' !in k3 && '=' !in v3
    ensures EnvMapOf([k1 + "=" + v1, k2 + "=" + v2, k3 + "=" + v3])
         == map[k1 := Some(v1)][k2 := Some(v2)][k3 := Some(v3)]
  {
    var ps := [(k1, v1), (k2, v2), (k3, v3)];
    assert Entries(ps) == [k1 + "=" + v1, k2 + "=" + v2, k3 + "=" + v3];
    EnvOfPairs(ps);
    var p1, p2 := [(k1, v1)], [(k1, v1), (k2, v2)];
    assert p1[..0] == [];
    assert PairsMap(p1) == map[k1 := Some(v1)];
    assert p2[..1] == p1;
    assert PairsMap(p2) == map[k1 := Some(v1)][k2 := Some(v2)];
    assert ps[..2] == p2;
  }

  /** With user, password and database declared, the example resolves to localhost:54320 with those credentials. */
  lemma ShopConfig()
    ensures InspectConfig(
              DBContainerInfo("c0ffee", "shop-db", "postgres:15", Postgres, "running", [54320]),
              EnvMapOf([UserVar + "=" + "admin", PasswordVar + "=" + "secret", DatabaseVar + "=" + "shop"]))
         == ConnectionConfig("localhost", 54320, "admin", Some("secret"), "shop")
  {
    assert '=' !in UserVar && '=' !in PasswordVar && '=' !in DatabaseVar;
    assert '=' !in "admin" && '=' !in "secret" && '=' !in "shop";
    ThreeEntries(UserVar, "admin", PasswordVar, "secret", DatabaseVar, "shop");
  }

  /** What `inspectContainer` returns. */
  datatype Inspection = Inspection(tables: seq<Row>, container: DBContainerInfo)

  /** What `getFullSchema` returns. */
  datatype FullSchema = FullSchema(schema: seq<Row>, rows: seq<Row>)

  class PeekEngine {
    const postgres: PostgresInspector

    constructor()
      ensures fresh(postgres) && !postgres.Connected() && postgres.trace == []
    {
      postgres := new PostgresInspector();
    }

    /** `discoverDatabases`: delegates to the detector. */
    method DiscoverDatabases(listing: seq<RawContainer>) returns (r: Result<seq<DBContainerInfo>, Error>)
      ensures r.Success? ==> forall i :: 0 <= i < |r.value| ==> r.value[i].dbType != Unknown
      ensures r == GetDatabaseContainers(listing)
    {
      r := GetDatabaseContainers(listing);
    }

    /**
     * `inspectContainer`, given the runtime's listing, its answer to the inspect
     * call and the server the configuration reaches. Lookup happens before the
     * inspect call; after a connect, a failure leaves the client in place.
     */
    method InspectContainer(
      containerId: string,
      listing: seq<RawContainer>,
      inspected: Result<Option<seq<string>>, string>,
      server: Database)
      returns (r: Result<Inspection, Error>)
      modifies postgres
      ensures match GetDatabaseContainers(listing)
        case Failure(e) =>
          r == Failure(e) && postgres.client == old(postgres.client) && postgres.trace == old(postgres.trace)
        case Success(containers) =>
          match FindById(containers, containerId)
          case None =>
            r == Failure(ContainerNotFound)
            && postgres.client == old(postgres.client) && postgres.trace == old(postgres.trace)
          case Some(container) =>
            match inspected
            case Failure(msg) =>
              r == Failure(RuntimeError(msg))
              && postgres.client == old(postgres.client) && postgres.trace == old(postgres.trace)
            case Success(env) =>
              var config := InspectConfig(container, EnvMapOf(EnvEntries(env)));
              var client := Client(config, ConnectionTimeoutMillis, server);
              if server.connectError.Some? then
                r == Failure(DriverError(server.connectError.value))
                && postgres.client == Some(client)
                && postgres.trace == old(postgres.trace) + [Opened(config)]
              else
                match server.run(ListTablesStatement, [])
                case Failure(msg) =>
                  r == Failure(DriverError(msg))
                  && postgres.client == Some(client)
                  && postgres.trace == old(postgres.trace) + [Opened(config), Queried(ListTablesStatement, [])]
                case Success(tables) =>
                  r == Success(Inspection(tables, container))
                  && postgres.client == None
                  && postgres.trace ==
                     old(postgres.trace) + [Opened(config), Queried(ListTablesStatement, []), Ended(config)]
    {
      var found := DiscoverDatabases(listing);
      if found.Failure? {
        return Failure(found.error);
      }
      var container := FindById(found.value, containerId);
      if container.None? {
        return Failure(ContainerNotFound);
      }
      if inspected.Failure? {
        return Failure(RuntimeError(inspected.error));
      }
      var env := GetContainerEnv(inspected.value);
      var config := InspectConfig(container.value, env);
      assert found == GetDatabaseContainers(listing) && env == EnvMapOf(EnvEntries(inspected.value));
      var connected := postgres.Connect(config, server);
      if connected.Fail? {
        return Failure(connected.error);
      }
      var tables := postgres.ListTables();
      if tables.Failure? {
        return Failure(tables.error);
      }
      postgres.Disconnect();
      r := Success(Inspection(tables.value, container.value));
    }

    /**
     * `getFullSchema`, given the runtime's answer to the inspect call (made first),
     * its listing and the server the configuration reaches. A container missing
     * from the discovered ones is no error: the default port is used.
     */
    method GetFullSchema(
      containerId: string,
      tableName: string,
      listing: seq<RawContainer>,
      inspected: Result<Option<seq<string>>, string>,
      server: Database)
      returns (r: Result<FullSchema, Error>)
      modifies postgres
      ensures match inspected
        case Failure(msg) =>
          r == Failure(RuntimeError(msg))
          && postgres.client == old(postgres.client) && postgres.trace == old(postgres.trace)
        case Success(env) =>
          match GetDatabaseContainers(listing)
          case Failure(e) =>
            r == Failure(e) && postgres.client == old(postgres.client) && postgres.trace == old(postgres.trace)
          case Success(containers) =>
            var config := SchemaConfig(FindById(containers, containerId), EnvMapOf(EnvEntries(env)));
            var client := Client(config, ConnectionTimeoutMillis, server);
            var schemaQuery := Queried(TableSchemaStatement, [TextParam(tableName)]);
            var previewQuery := Queried(PreviewStatement(tableName), [NumberParam(FullSchemaPreviewLimit)]);
            if server.connectError.Some? then
              r == Failure(DriverError(server.connectError.value))
              && postgres.client == Some(client)
              && postgres.trace == old(postgres.trace) + [Opened(config)]
            else
              match server.run(TableSchemaStatement, [TextParam(tableName)])
              case Failure(msg) =>
                r == Failure(DriverError(msg))
                && postgres.client == Some(client)
                && postgres.trace == old(postgres.trace) + [Opened(config), schemaQuery]
              case Success(schema) =>
                match server.run(PreviewStatement(tableName), [NumberParam(FullSchemaPreviewLimit)])
                case Failure(msg) =>
                  r == Failure(DriverError(msg))
                  && postgres.client == Some(client)
                  && postgres.trace == old(postgres.trace) + [Opened(config), schemaQuery, previewQuery]
                case Success(rows) =>
                  r == Success(FullSchema(schema, rows))
                  && postgres.client == None
                  && postgres.trace ==
                     old(postgres.trace) + [Opened(config), schemaQuery, previewQuery, Ended(config)]
    {
      if inspected.Failure? {
        return Failure(RuntimeError(inspected.error));
      }
      var env := GetContainerEnv(inspected.value);
      var found := DiscoverDatabases(listing);
      if found.Failure? {
        return Failure(found.error);
      }
      var container := FindById(found.value, containerId);
      var config := SchemaConfig(container, env);
      assert found == GetDatabaseContainers(listing) && env == EnvMapOf(EnvEntries(inspected.value));
      ghost var before := postgres.trace;
      var connected := postgres.Connect(config, server);
      if connected.Fail? {
        return Failure(connected.error);
      }
      var schema := postgres.GetTableSchema(tableName);
      if schema.Failure? {
        return Failure(schema.error);
      }
      var rows := postgres.PreviewRows(tableName, FullSchemaPreviewLimit);
      if rows.Failure? {
        assert postgres.trace == before + [Opened(config),
          Queried(TableSchemaStatement, [TextParam(tableName)]),
          Queried(PreviewStatement(tableName), [NumberParam(FullSchemaPreviewLimit)])];
        return Failure(rows.error);
      }
      postgres.Disconnect();
      r := Success(FullSchema(schema.value, rows.value));
    }
  }
}
