/**
 * The container side of the system (`DockerDetector`): a listing of running
 * containers becomes the records of the database containers among them, and a
 * container's declared `KEY=VALUE` environment becomes a lookup table.
 * The runtime's `listContainers` and `inspect` answers are inputs here.
 */
module Detector {
  import opened Wrappers
  import opened JsStrings

  /** The engine a container is classified as. */
  datatype DbType = Postgres | MySql | Unknown

  /** One entry of a listing's `Ports`; `publicPort` is absent for a port not published on the host. */
  datatype RawPort = RawPort(privatePort: int, publicPort: Option<int>)

  /** One container of the runtime's listing, with the fields the detector reads. */
  datatype RawContainer = RawContainer(
    id: string,
    names: seq<string>,
    image: string,
    state: string,
    ports: seq<RawPort>)

  /** `DBContainerInfo`: what discovery reports about one container. */
  datatype DBContainerInfo = DBContainerInfo(
    id: string,
    name: string,
    image: string,
    dbType: DbType,
    status: string,
    ports: seq<int>)

  const PostgresMarker: string := "postgres"
  const MySqlMarker: string := "mysql"
  const MariaDbMarker: string := "mariadb"

  /** `text` contains `sub` somewhere (the positional definition). */
  ghost predicate Mentions(text: string, sub: string)
  {
    exists i :: OccursAt(text, sub, i)
  }

  /**
   * The classification of an image reference: on the lower-cased text, "postgres"
   * is tested first, then "mysql" or "mariadb"; anything else is not a database.
   */
  function Classify(image: string): (t: DbType)
    ensures t == Postgres <==> Mentions(ToLower(image), PostgresMarker)
    ensures t == MySql <==>
      && !Mentions(ToLower(image), PostgresMarker)
      && (Mentions(ToLower(image), MySqlMarker) || Mentions(ToLower(image), MariaDbMarker))
  {
    var lower := ToLower(image);
    IncludesIffOccurs(lower, PostgresMarker);
    IncludesIffOccurs(lower, MySqlMarker);
    IncludesIffOccurs(lower, MariaDbMarker);
    if Includes(lower, PostgresMarker) then Postgres
    else if Includes(lower, MySqlMarker) || Includes(lower, MariaDbMarker) then MySql
    else Unknown
  }

  /** Classification only sees the lower-cased image: re-lowering the input changes nothing. */
  lemma ClassifyIgnoresCase(image: string)
    ensures Classify(ToLower(image)) == Classify(image)
  {
    ToLowerIdempotent(image);
  }

  /** An image whose text contains "postgres" in lower case is a Postgres container, whatever else it says. */
  lemma PostgresWins(image: string)
    requires Includes(image, PostgresMarker)
    ensures Classify(image) == Postgres
  {
    assert IsLower(PostgresMarker) by {
      forall i | 0 <= i < |PostgresMarker| ensures LowerChar(PostgresMarker[i]) == PostgresMarker[i] {
        assert PostgresMarker[i] in "postgres";
      }
    }
    IncludesSurvivesLowering(image, PostgresMarker);
    IncludesIffOccurs(ToLower(image), PostgresMarker);
  }

  /** `c.Names[0].replace('/', '')`: the first `/` is removed, wherever it is; no name is a TypeError. */
  function ContainerName(names: seq<string>): (r: Result<string, Error>)
    ensures r.Failure? <==> names == []
    ensures r.Failure? ==> r.error == NameMissing
    ensures r.Success? && '/' !in names[0] ==> r.value == names[0]
    ensures r.Success? && '/' in names[0] ==>
      var k := IndexOf(names[0], '/');
      |r.value| == |names[0]| - 1 && r.value[..k] == names[0][..k] && r.value[k..] == names[0][k + 1..]
  {
    if names == [] then Failure(NameMissing) else Success(RemoveFirst(names[0], '/'))
  }

  /** A port passes `filter(Boolean)` when its public side is defined and non-zero. */
  predicate IsPublished(p: RawPort)
  {
    p.publicPort.Some? && p.publicPort.value != 0
  }

  /** `c.Ports.map(p => p.PublicPort).filter(Boolean)`. */
  function PublicPorts(ports: seq<RawPort>): (r: seq<int>)
    ensures |r| <= |ports|
    ensures forall i :: 0 <= i < |r| ==> r[i] != 0
    decreases |ports|
  {
    if ports == [] then []
    else (if IsPublished(ports[0]) then [ports[0].publicPort.value] else []) + PublicPorts(ports[1..])
  }

  /** The filter keeps the runtime's order: it distributes over concatenation. */
  lemma {:induction false} PublicPortsAppend(a: seq<RawPort>, b: seq<RawPort>)
    ensures PublicPorts(a + b) == PublicPorts(a) + PublicPorts(b)
    decreases |a|
  {
    if a != [] {
      assert (a + b)[1..] == a[1..] + b;
      PublicPortsAppend(a[1..], b);
    } else {
      assert a + b == b;
    }
  }

  /** A port number is kept exactly when some listed port publishes it and it is non-zero. */
  lemma {:induction false} PublicPortsMembers(ports: seq<RawPort>, x: int)
    ensures x in PublicPorts(ports) <==>
      x != 0 && exists i :: 0 <= i < |ports| && ports[i].publicPort == Some(x)
    decreases |ports|
  {
    if ports != [] {
      PublicPortsMembers(ports[1..], x);
      if exists i :: 0 <= i < |ports[1..]| && ports[1..][i].publicPort == Some(x) {
        var i :| 0 <= i < |ports[1..]| && ports[1..][i].publicPort == Some(x);
        assert ports[i + 1].publicPort == Some(x);
      }
      if x != 0 && exists i :: 0 <= i < |ports| && ports[i].publicPort == Some(x) {
        var i :| 0 <= i < |ports| && ports[i].publicPort == Some(x);
        if i > 0 {
          assert ports[1..][i - 1].publicPort == Some(x);
        }
      }
    }
  }

  /** The record the `.map` callback builds for one listed container. */
  function ToInfo(c: RawContainer): (r: Result<DBContainerInfo, Error>)
    ensures r.Failure? <==> c.names == []
    ensures r.Failure? ==> r.error == NameMissing
    ensures r.Success? ==>
      && r.value.id == c.id
      && r.value.image == c.image
      && r.value.status == c.state
      && r.value.name == ContainerName(c.names).value
      && r.value.dbType == Classify(c.image)
      && r.value.ports == PublicPorts(c.ports)
  {
    match ContainerName(c.names)
    case Failure(e) => Failure(e)
    case Success(name) =>
      Success(DBContainerInfo(c.id, name, c.image, Classify(c.image), c.state, PublicPorts(c.ports)))
  }

  /** The `.map` step: one record per listed container, or the TypeError of the first nameless one. */
  function MapInfos(raw: seq<RawContainer>): (r: Result<seq<DBContainerInfo>, Error>)
    ensures r.Failure? ==> r.error == NameMissing
    ensures r.Failure? <==> exists i :: 0 <= i < |raw| && raw[i].names == []
    ensures r.Success? ==> |r.value| == |raw|
    ensures r.Success? ==> forall i :: 0 <= i < |raw| ==> ToInfo(raw[i]) == Success(r.value[i])
    decreases |raw|
  {
    if raw == [] then Success([])
    else
      match ToInfo(raw[0])
      case Failure(e) =>
        assert raw[0].names == [];
        Failure(e)
      case Success(info) =>
        match MapInfos(raw[1..])
        case Failure(e) =>
          assert exists i :: 0 <= i < |raw| && raw[i].names == [] by {
            var i :| 0 <= i < |raw[1..]| && raw[1..][i].names == [];
            assert raw[i + 1].names == [];
          }
          Failure(e)
        case Success(rest) =>
          assert forall i :: 0 <= i < |raw| ==> ToInfo(raw[i]) == Success(([info] + rest)[i]) by {
            forall i | 0 <= i < |raw| ensures ToInfo(raw[i]) == Success(([info] + rest)[i]) {
              if i > 0 {
                assert raw[i] == raw[1..][i - 1];
              }
            }
          }
          Success([info] + rest)
  }

  /** The `.filter(c => c.type !== 'unknown')` step. */
  function KeepDatabases(infos: seq<DBContainerInfo>): (r: seq<DBContainerInfo>)
    ensures |r| <= |infos|
    ensures forall i :: 0 <= i < |r| ==> r[i].dbType != Unknown
    decreases |infos|
  {
    if infos == [] then []
    else (if infos[0].dbType != Unknown then [infos[0]] else []) + KeepDatabases(infos[1..])
  }

  /** The filter keeps the order of the records it passes: it distributes over concatenation. */
  lemma {:induction false} KeepDatabasesAppend(a: seq<DBContainerInfo>, b: seq<DBContainerInfo>)
    ensures KeepDatabases(a + b) == KeepDatabases(a) + KeepDatabases(b)
    decreases |a|
  {
    if a != [] {
      assert (a + b)[1..] == a[1..] + b;
      KeepDatabasesAppend(a[1..], b);
    } else {
      assert a + b == b;
    }
  }

  /** The filter keeps a record exactly when it is classified as a database. */
  lemma {:induction false} KeepDatabasesMembers(infos: seq<DBContainerInfo>, c: DBContainerInfo)
    ensures c in KeepDatabases(infos) <==> c in infos && c.dbType != Unknown
    decreases |infos|
  {
    if infos != [] {
      KeepDatabasesMembers(infos[1..], c);
      assert infos == [infos[0]] + infos[1..];
    }
  }

  /** `getDatabaseContainers` on a given listing. */
  function GetDatabaseContainers(raw: seq<RawContainer>): (r: Result<seq<DBContainerInfo>, Error>)
    ensures r.Failure? <==> exists i :: 0 <= i < |raw| && raw[i].names == []
    ensures r.Failure? ==> r.error == NameMissing
    ensures r.Success? ==> |r.value| <= |raw|
    ensures r.Success? ==> forall i :: 0 <= i < |r.value| ==> r.value[i].dbType != Unknown
  {
    match MapInfos(raw)
    case Failure(e) => Failure(e)
    case Success(infos) => Success(KeepDatabases(infos))
  }

  /** A listing of one database container is discovered as that container's record alone. */
  lemma DiscoverSingle(c: RawContainer)
    requires c.names != []
    requires Classify(c.image) != Unknown
    ensures GetDatabaseContainers([c]) == Success([ToInfo(c).value])
  {
    var info := ToInfo(c).value;
    assert [c][0] == c;
    assert [c][1..] == [];
    assert MapInfos([c][1..]) == Success([]);
    assert [info] + [] == [info];
    assert MapInfos([c]) == Success([info]);
    assert KeepDatabases([info]) == [info] by {
      assert [info][1..] == [];
    }
  }

  /**
   * Discovery reports a record exactly when it is the record of some listed
   * container and that container is a Postgres or MySQL one.
   */
  lemma DiscoveryMembers(raw: seq<RawContainer>, c: DBContainerInfo)
    requires GetDatabaseContainers(raw).Success?
    ensures c in GetDatabaseContainers(raw).value <==>
      c.dbType != Unknown && exists i :: 0 <= i < |raw| && ToInfo(raw[i]) == Success(c)
  {
    var infos := MapInfos(raw).value;
    KeepDatabasesMembers(infos, c);
    if c in infos {
      var i :| 0 <= i < |infos| && infos[i] == c;
      assert ToInfo(raw[i]) == Success(c);
    }
    if exists i :: 0 <= i < |raw| && ToInfo(raw[i]) == Success(c) {
      var i :| 0 <= i < |raw| && ToInfo(raw[i]) == Success(c);
      assert infos[i] == c;
    }
  }

  /** Discovery keeps the runtime's order: the listing `a + b` gives the records of `a` followed by those of `b`. */
  lemma DiscoveryAppend(a: seq<RawContainer>, b: seq<RawContainer>)
    ensures GetDatabaseContainers(a + b).Success? <==>
      GetDatabaseContainers(a).Success? && GetDatabaseContainers(b).Success?
    ensures GetDatabaseContainers(a + b).Success? ==>
      GetDatabaseContainers(a + b).value == GetDatabaseContainers(a).value + GetDatabaseContainers(b).value
  {
    MapInfosAppend(a, b);
    if MapInfos(a).Success? && MapInfos(b).Success? {
      KeepDatabasesAppend(MapInfos(a).value, MapInfos(b).value);
    }
  }

  /** The `.map` step distributes over concatenation, failing when either half does. */
  lemma MapInfosAppend(a: seq<RawContainer>, b: seq<RawContainer>)
    ensures MapInfos(a + b).Success? <==> MapInfos(a).Success? && MapInfos(b).Success?
    ensures MapInfos(a + b).Success? ==> MapInfos(a + b).value == MapInfos(a).value + MapInfos(b).value
  {
    var ab := a + b;
    if exists i :: 0 <= i < |a| && a[i].names == [] {
      var i :| 0 <= i < |a| && a[i].names == [];
      assert ab[i].names == [];
    }
    if exists i :: 0 <= i < |b| && b[i].names == [] {
      var i :| 0 <= i < |b| && b[i].names == [];
      assert ab[|a| + i].names == [];
    }
    if exists i :: 0 <= i < |ab| && ab[i].names == [] {
      var i :| 0 <= i < |ab| && ab[i].names == [];
      if i < |a| {
        assert a[i].names == [];
      } else {
        assert b[i - |a|].names == [];
      }
    }
    if MapInfos(ab).Success? {
      var x, y, z := MapInfos(a).value, MapInfos(b).value, MapInfos(ab).value;
      forall i | 0 <= i < |z| ensures z[i] == (x + y)[i] {
        if i < |a| {
          assert ab[i] == a[i];
        } else {
          assert ab[i] == b[i - |a|];
        }
      }
    }
  }

  /** The environment map: each name maps to its value, or to nothing for an entry without `=`. */
  type EnvMap = map<string, Option<string>>

  /** `const [key, value] = e.split('=')`: the text before the first `=`, and the text up to the next one. */
  function ParseEntry(e: string): (kv: (string, Option<string>))
    ensures '=' !in kv.0
    ensures kv.1.None? <==> '=' !in e
    ensures '=' !in e ==> kv.0 == e
  {
    var parts := Split(e, '=');
    (parts[0], if |parts| >= 2 then Some(parts[1]) else None)
  }

  /**
   * What the destructured split binds: without `=` the whole entry is the key and
   * there is no value; otherwise the entry reads key, `=`, value, then either its end
   * or a second `=` (whatever follows that is dropped). Neither part contains `=`.
   */
  lemma ParseEntryMeaning(e: string)
    ensures ParseEntry(e).1.Some? ==>
      var key, value := ParseEntry(e).0, ParseEntry(e).1.value;
      var m := |key| + 1 + |value|;
      && '=' !in value
      && m <= |e|
      && e[..|key|] == key
      && e[|key|] == '='
      && e[|key| + 1..m] == value
      && (m == |e| || e[m] == '=')
  {
    if '=' in e {
      var k := IndexOf(e, '=');
      var tail := e[k + 1..];
      SplitFirstTwo(e, '=');
      IndexOfPrefix(tail, '=');
      EntryLayout(e, k, tail, IndexOf(tail, '='));
    }
  }

  /** The pieces around the first two `=` of an entry, by position. */
  lemma EntryLayout(e: string, k: nat, tail: string, j: nat)
    requires k < |e| && k == IndexOf(e, '=') && tail == e[k + 1..] && j == IndexOf(tail, '=')
    ensures k + 1 + j <= |e|
    ensures e[k] == '='
    ensures e[k + 1..k + 1 + j] == tail[..j]
    ensures k + 1 + j == |e| || e[k + 1 + j] == '='
  {
    if k + 1 + j < |e| {
      assert e[k + 1 + j] == tail[j];
    }
  }

  /** An entry written as `KEY=VALUE` with neither part holding `=` parses back to exactly that pair. */
  lemma ParseKeyValue(key: string, value: string)
    requires '=' !in key && '=' !in value
    ensures ParseEntry(key + "=" + value) == (key, Some(value))
  {
    assert Join([key, value], '=') == key + "=" + value by {
      assert [key, value][1..] == [value];
    }
    JoinThenSplit([key, value], '=');
  }

  /** `data.Config.Env || []`: the declared entries, none when the container declares no environment. */
  function EnvEntries(env: Option<seq<string>>): (entries: seq<string>)
    ensures env.None? ==> entries == []
    ensures env.Some? ==> entries == env.value
  {
    if env.Some? then env.value else []
  }

  /** The map the `forEach` loop has built after the given entries: later entries overwrite earlier ones. */
  function EnvMapOf(entries: seq<string>): (m: EnvMap)
    ensures entries != [] ==> ParseEntry(entries[|entries| - 1]).0 in m
    decreases |entries|
  {
    if entries == [] then map[]
    else
      var kv := ParseEntry(entries[|entries| - 1]);
      EnvMapOf(entries[..|entries| - 1])[kv.0 := kv.1]
  }

  /** One more entry overwrites (or adds) its own name and leaves the rest of the map alone. */
  lemma EnvMapOfSnoc(entries: seq<string>, e: string)
    ensures EnvMapOf(entries + [e]) == EnvMapOf(entries)[ParseEntry(e).0 := ParseEntry(e).1]
  {
    assert (entries + [e])[..|entries|] == entries;
  }

  /** A name is in the map exactly when some entry declares it. */
  lemma {:induction false} EnvMapKeys(entries: seq<string>, key: string)
    ensures key in EnvMapOf(entries) <==> exists i :: 0 <= i < |entries| && ParseEntry(entries[i]).0 == key
    decreases |entries|
  {
    if entries != [] {
      var n := |entries| - 1;
      var init := entries[..n];
      EnvMapKeys(init, key);
      if exists i :: 0 <= i < |init| && ParseEntry(init[i]).0 == key {
        var i :| 0 <= i < |init| && ParseEntry(init[i]).0 == key;
        assert entries[i] == init[i];
      }
      if exists i :: 0 <= i < |entries| && ParseEntry(entries[i]).0 == key {
        var i :| 0 <= i < |entries| && ParseEntry(entries[i]).0 == key;
        if i < n {
          assert init[i] == entries[i];
        }
      }
    }
  }

  /** The value a name maps to is the one its last declaring entry gives. */
  lemma {:induction false} EnvMapLastWins(entries: seq<string>, i: nat)
    requires i < |entries|
    requires forall j :: i < j < |entries| ==> ParseEntry(entries[j]).0 != ParseEntry(entries[i]).0
    ensures ParseEntry(entries[i]).0 in EnvMapOf(entries)
    ensures EnvMapOf(entries)[ParseEntry(entries[i]).0] == ParseEntry(entries[i]).1
    decreases |entries|
  {
    var n := |entries| - 1;
    if i < n {
      var init := entries[..n];
      assert init[i] == entries[i];
      forall j | i < j < |init| ensures ParseEntry(init[j]).0 != ParseEntry(init[i]).0 {
        assert init[j] == entries[j];
      }
      EnvMapLastWins(init, i);
      assert EnvMapOf(entries) == EnvMapOf(init)[ParseEntry(entries[n]).0 := ParseEntry(entries[n]).1];
    }
  }

  /** The entry `NAME=value` of one name and value. */
  function EntryOf(p: (string, string)): string
  {
    p.0 + "=" + p.1
  }

  /** Name/value pairs written out as environment entries, in order. */
  function Entries(ps: seq<(string, string)>): seq<string>
  {
    seq(|ps|, i requires 0 <= i < |ps| => EntryOf(ps[i]))
  }

  /** The map of name/value pairs, each later pair overwriting an earlier one with the same name. */
  function PairsMap(ps: seq<(string, string)>): EnvMap
    decreases |ps|
  {
    if ps == [] then map[]
    else PairsMap(ps[..|ps| - 1])[ps[|ps| - 1].0 := Some(ps[|ps| - 1].1)]
  }

  /** Entries written `NAME=value`, with no `=` inside a name or a value, give exactly the map of their pairs. */
  lemma {:induction false} EnvOfPairs(ps: seq<(string, string)>)
    requires forall i :: 0 <= i < |ps| ==> '=' !in ps[i].0 && '=' !in ps[i].1
    ensures EnvMapOf(Entries(ps)) == PairsMap(ps)
    decreases |ps|
  {
    if ps != [] {
      var n := |ps| - 1;
      var init := ps[..n];
      assert Entries(ps) == Entries(init) + [EntryOf(ps[n])];
      EnvOfPairs(init);
      EnvMapOfSnoc(Entries(init), EntryOf(ps[n]));
      ParseKeyValue(ps[n].0, ps[n].1);
    }
  }

  /**
   * `getContainerEnv` once the runtime's `inspect` has answered with the
   * container's `Config.Env` (absent when the container declares none).
   */
  method GetContainerEnv(env: Option<seq<string>>) returns (envMap: EnvMap)
    ensures env.None? ==> envMap == map[]
    ensures envMap == EnvMapOf(EnvEntries(env))
  {
    var entries := EnvEntries(env);
    envMap := map[];
    var i := 0;
    while i < |entries|
      invariant 0 <= i <= |entries|
      invariant envMap == EnvMapOf(entries[..i])
    {
      var kv := ParseEntry(entries[i]);
      assert entries[..i + 1][..i] == entries[..i];
      envMap := envMap[kv.0 := kv.1];
      i := i + 1;
    }
    assert entries[..i] == entries;
  }
}
