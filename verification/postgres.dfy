/**
 * The Postgres side of the system (`PostgresInspector`): one nullable driver
 * client, set by `connect` and cleared by `disconnect`, and three query methods
 * that refuse to run without it. The database server is opaque: it answers a
 * statement and its bound parameters with rows or with an error message.
 * A ghost trace records what the driver was asked to do, in order.
 */
module Postgres {
  import opened Wrappers
  import opened JsStrings

  /** `ConnectionConfig`; `password` is optional in the interface. */
  datatype ConnectionConfig = ConnectionConfig(
    host: string,
    port: int,
    user: string,
    password: Option<string>,
    database: string)

  /** A column value as the driver hands it over. */
  datatype Value = Null | Text(text: string) | Number(number: int) | Flag(flag: bool) | Native(repr: string)

  /** One result row: column names with their values, in the order the driver reports them. */
  datatype Row = Row(fields: seq<(string, Value)>)

  /** A bound statement parameter (`$1`). */
  datatype Param = TextParam(text: string) | NumberParam(number: int)

  /** The server a configuration reaches: whether the handshake fails, and how it answers statements. */
  datatype Database = Database(
    connectError: Option<string>,
    run: (string, seq<Param>) -> Result<seq<Row>, string>)

  /** The `connectionTimeoutMillis` every client is created with. */
  const ConnectionTimeoutMillis: int := 5000

  /** A driver client: the configuration it was created from, its options and the server it talks to. */
  datatype Client = Client(config: ConnectionConfig, connectionTimeoutMillis: int, server: Database)

  /** What the driver is asked to do. */
  datatype Event =
    | Opened(config: ConnectionConfig)
    | Queried(statement: string, params: seq<Param>)
    | Ended(config: ConnectionConfig)

  const ListTablesStatement: string :=
    "\n      SELECT table_name as name\n      FROM information_schema.tables \n      WHERE table_schema = 'public' \n      AND table_type = 'BASE TABLE'\n      ORDER BY table_name;\n    "

  const TableSchemaStatement: string :=
    "\n      SELECT column_name, data_type, is_nullable, column_default\n      FROM information_schema.columns\n      WHERE table_name = $1\n      AND table_schema = 'public'\n      ORDER BY ordinal_position;\n    "

  const PreviewPrefix: string := "\n      SELECT * FROM \""
  const PreviewSuffix: string := "\" LIMIT $1;\n    "

  /** The default `limit` of `previewRows`. */
  const DefaultPreviewLimit: int := 5

  /** The row-preview statement: the table name is interpolated between double quotes, unchecked. */
  function PreviewStatement(tableName: string): (statement: string)
    ensures |statement| == |PreviewPrefix| + |tableName| + |PreviewSuffix|
    ensures statement[..|PreviewPrefix|] == PreviewPrefix
    ensures statement[|PreviewPrefix| + |tableName|..] == PreviewSuffix
  {
    PreviewPrefix + tableName + PreviewSuffix
  }

  /** Distinct table names give distinct preview statements, and the name sits verbatim after the prefix. */
  lemma PreviewStatementInjective(a: string, b: string)
    ensures PreviewStatement(a)[|PreviewPrefix|..|PreviewPrefix| + |a|] == a
    ensures PreviewStatement(a) == PreviewStatement(b) ==> a == b
  {
    var sa := PreviewStatement(a);
    assert sa[|PreviewPrefix|..|PreviewPrefix| + |a|] == a;
    if sa == PreviewStatement(b) {
      assert |a| == |b|;
      assert PreviewStatement(b)[|PreviewPrefix|..|PreviewPrefix| + |b|] == b;
    }
  }

  /**
   * No escaping, stated on the statement text: the text between the opening quote and
   * the next `"` is the table name cut at its own first `"`, so it is the whole name
   * exactly when the name has no double quote. (How the server then reads a name that
   * holds quotes, doubled `""` included, is not part of this model.)
   */
  lemma PreviewQuotedIdentifier(tableName: string)
    ensures var body := PreviewStatement(tableName)[|PreviewPrefix|..];
      body[..IndexOf(body, '"')] == tableName[..IndexOf(tableName, '"')]
    ensures var body := PreviewStatement(tableName)[|PreviewPrefix|..];
      body[..IndexOf(body, '"')] == tableName <==> '"' !in tableName
  {
    var body := PreviewStatement(tableName)[|PreviewPrefix|..];
    assert body == tableName + PreviewSuffix;
    IndexOfConcat(tableName, PreviewSuffix, '"');
    assert PreviewSuffix[0] == '"';
    var k := IndexOf(tableName, '"');
    assert IndexOf(body, '"') == k;
    assert body[..k] == tableName[..k];
  }

  /** What a query method returns for the server's answer: the rows unchanged, or the driver's error. */
  function Answer(res: Result<seq<Row>, string>): (r: Result<seq<Row>, Error>)
    ensures r.Success? <==> res.Success?
    ensures r.Success? ==> r.value == res.value
    ensures r.Failure? ==> r.error == DriverError(res.error)
  {
    match res
    case Success(rows) => Success(rows)
    case Failure(msg) => Failure(DriverError(msg))
  }

  class PostgresInspector {
    var client: Option<Client>
    ghost var trace: seq<Event>

    /** The inspector holds a client. */
    predicate Connected()
      reads this
    {
      client.Some?
    }

    /** A fresh inspector holds no client and has asked the driver nothing. */
    constructor()
      ensures !Connected() && trace == []
    {
      client := None;
      trace := [];
    }

    /**
     * `connect`: a new client replaces any previous one (which is not ended) before
     * the handshake; a failed handshake is reported but the new client stays.
     */
    method Connect(config: ConnectionConfig, server: Database) returns (r: Outcome<Error>)
      modifies this
      ensures Connected()
      ensures client == Some(Client(config, ConnectionTimeoutMillis, server))
      ensures trace == old(trace) + [Opened(config)]
      ensures r.Fail? <==> server.connectError.Some?
      ensures r.Fail? ==> r.error == DriverError(server.connectError.value)
    {
      client := Some(Client(config, ConnectionTimeoutMillis, server));
      trace := trace + [Opened(config)];
      if server.connectError.Some? {
        r := Fail(DriverError(server.connectError.value));
      } else {
        r := Pass;
      }
    }

    /** `disconnect`: ends and drops the client if there is one; without one it changes nothing. */
    method Disconnect()
      modifies this
      ensures !Connected()
      ensures old(client).Some? ==> trace == old(trace) + [Ended(old(client).value.config)]
      ensures old(client).None? ==> trace == old(trace)
    {
      if client.Some? {
        trace := trace + [Ended(client.value.config)];
        client := None;
      }
    }

    /** `listTables`: the fixed catalogue statement, no parameters. */
    method ListTables() returns (r: Result<seq<Row>, Error>)
      modifies this`trace
      ensures client == old(client)
      ensures old(client).None? ==> r == Failure(NotConnected) && trace == old(trace)
      ensures old(client).Some? ==>
        && trace == old(trace) + [Queried(ListTablesStatement, [])]
        && r == Answer(client.value.server.run(ListTablesStatement, []))
    {
      if client.None? {
        return Failure(NotConnected);
      }
      trace := trace + [Queried(ListTablesStatement, [])];
      r := Answer(client.value.server.run(ListTablesStatement, []));
    }

    /** `getTableSchema`: the statement text is fixed; the table name travels only as the bound `$1`. */
    method GetTableSchema(tableName: string) returns (r: Result<seq<Row>, Error>)
      modifies this`trace
      ensures client == old(client)
      ensures old(client).None? ==> r == Failure(NotConnected) && trace == old(trace)
      ensures old(client).Some? ==>
        && trace == old(trace) + [Queried(TableSchemaStatement, [TextParam(tableName)])]
        && r == Answer(client.value.server.run(TableSchemaStatement, [TextParam(tableName)]))
    {
      if client.None? {
        return Failure(NotConnected);
      }
      trace := trace + [Queried(TableSchemaStatement, [TextParam(tableName)])];
      r := Answer(client.value.server.run(TableSchemaStatement, [TextParam(tableName)]));
    }

    /** `previewRows`: the table name is spliced into the statement text; the limit is the bound `$1`. */
    method PreviewRows(tableName: string, limit: int := DefaultPreviewLimit) returns (r: Result<seq<Row>, Error>)
      modifies this`trace
      ensures client == old(client)
      ensures old(client).None? ==> r == Failure(NotConnected) && trace == old(trace)
      ensures old(client).Some? ==>
        && trace == old(trace) + [Queried(PreviewStatement(tableName), [NumberParam(limit)])]
        && r == Answer(client.value.server.run(PreviewStatement(tableName), [NumberParam(limit)]))
    {
      if client.None? {
        return Failure(NotConnected);
      }
      var statement := PreviewStatement(tableName);
      trace := trace + [Queried(statement, [NumberParam(limit)])];
      r := Answer(client.value.server.run(statement, [NumberParam(limit)]));
    }
  }
}
