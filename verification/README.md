# dbpeek core, modelled in Dafny

dbpeek finds database containers running under Docker and inspects them. It
lists the running containers and keeps the Postgres and MySQL ones. From a
container's published ports and `POSTGRES_*` environment it works out where
and how to connect. Then it asks a Postgres server for its tables, a table's
columns and a preview of its rows.

The model covers three source files:

- `src/docker/detector.ts` becomes module `Detector`. Discovery is a pure
  map/classify/filter pipeline over a given listing. `getContainerEnv` is a
  method whose loop builds the environment map; it is proved against
  `EnvMapOf`.
- `src/database/postgres.ts` becomes module `Postgres`. `PostgresInspector` is
  a class with the nullable `client` field, written `Option<Client>`. Its
  ghost `trace` records, in order, every client opened, every statement sent
  (with its bound parameters) and every client ended. The database server is
  opaque: a `Database` value says whether the handshake fails and maps a
  statement and its parameters to rows or an error message.
- `src/core/engine.ts` becomes module `Engine`. `PeekEngine` owns one
  inspector. The configuration is built at two call sites, each with its own
  copy of the `||` fallback chain, and both copies are modelled as written
  (`InspectConfig`, `SchemaConfig`).

Module `JsStrings` writes out the JavaScript string built-ins the detector
uses: `toLowerCase`, `includes`, `replace` with a one-character pattern, and
`split`. Module `Wrappers` holds `Option`, `Result`, `Outcome` and the errors
the core throws.

The Docker calls and the server are inputs, not effects:

- the `listContainers` answer is a `seq<RawContainer>`;
- the `inspect` answer for the requested id is
  `Result<Option<seq<string>>, string>`: an error from the runtime, or
  `Config.Env`, which may be absent;
- the server the resolved configuration reaches is a `Database`.

Some behaviour of the code a reader might not expect, which the model keeps as
written:

- Entries without `=` are not ignored. They map their whole text to
  "undefined", which the `||` chain then skips.
- A value is cut at a second `=`: `POSTGRES_PASSWORD=a=b` gives the password
  `a`, so a value that itself holds `=` (a base64 string with padding, say) is
  truncated (`Detector.ParseEntryMeaning`).
- The first `/` of a name is removed wherever it occurs, not only at the start.
- Lookup uses exact id equality only. There is no prefix or name matching, and
  the error does not list the available ids.
- There is no database override argument.
- `previewRows` puts the table name between double quotes without validating
  or escaping it (`Postgres.PreviewQuotedIdentifier`).
- No disconnect happens on an error path.
- `getFullSchema` does not fail for an id that is not among the discovered
  containers. It uses port 5432, provided the runtime's `inspect` accepted the
  id.

## Model

| member | source | states |
|---|---|---|
| `JsStrings.ToLower` | src/docker/detector.ts:29 | lower-casing keeps the length and lowers each character on its own |
| `JsStrings.Includes` | src/docker/detector.ts:32-34 | `includes` holds whenever the pattern is a prefix, and only when the pattern is no longer than the text; its exact meaning is `IncludesIffOccurs` |
| `JsStrings.IncludesIffOccurs` | src/docker/detector.ts:32-34 | the left-to-right `includes` scan is true exactly when the pattern occurs at some position |
| `JsStrings.IncludesSurvivesLowering` | src/docker/detector.ts:29-32 | a lower-case pattern found in a text is still found after the text is lower-cased |
| `JsStrings.ToLowerIdempotent` | src/docker/detector.ts:29 | lower-casing twice is lower-casing once |
| `JsStrings.IndexOf` | src/docker/detector.ts:60 | the first position of a character, or the length when it is absent; no earlier position holds it |
| `JsStrings.RemoveFirst` | src/docker/detector.ts:28 | `replace('/', '')` removes only the first `/`, wherever it is: one character shorter, same text before that position, the text after it shifted by one; a text without `/` is unchanged |
| `JsStrings.Split` | src/docker/detector.ts:60 | `split('=')` gives at least one part and no part contains the separator |
| `JsStrings.SplitHead` | src/docker/detector.ts:60 | the first part is the text before the first separator |
| `JsStrings.SplitFirstTwo` | src/docker/detector.ts:60 | with a separator present there are at least two parts: the text before the first separator, then the text after it up to the next one |
| `JsStrings.SplitThenJoin` | src/docker/detector.ts:60 | splitting loses nothing: joining the parts with the separator gives back the text |
| `JsStrings.JoinThenSplit` | src/docker/detector.ts:60 | parts free of the separator are exactly what splitting their join returns |
| `Detector.Classify` | src/docker/detector.ts:29-36 | Postgres exactly when the lower-cased image mentions "postgres"; MySQL exactly when it does not but mentions "mysql" or "mariadb"; otherwise unknown |
| `Detector.ClassifyIgnoresCase` | src/docker/detector.ts:29 | classification depends only on the lower-cased image |
| `Detector.PostgresWins` | src/docker/detector.ts:32-33 | an image containing "postgres" is Postgres even when it also mentions mysql or mariadb |
| `Detector.ContainerName` | src/docker/detector.ts:28 | the first name minus its first `/`, one character shorter when there was one; an empty `Names` fails |
| `Detector.PublicPorts` | src/docker/detector.ts:44 | the kept ports are non-zero and no more numerous than the listed ones |
| `Detector.PublicPortsAppend` | src/docker/detector.ts:44 | the port filter keeps the runtime's order: it distributes over concatenation |
| `Detector.PublicPortsMembers` | src/docker/detector.ts:44 | a number is kept exactly when it is non-zero and some listed port publishes it |
| `Detector.ToInfo` | src/docker/detector.ts:27-46 | the record keeps id, state and the image in its original case; it takes its name, type and ports from the rules above; no name means failure |
| `Detector.MapInfos` | src/docker/detector.ts:26-46 | the map step fails exactly when some listed container has no name; otherwise it gives one record per container, position by position |
| `Detector.MapInfosAppend` | src/docker/detector.ts:26-46 | the map step distributes over concatenation of listings |
| `Detector.KeepDatabases` | src/docker/detector.ts:47 | the filter output is no longer than its input and holds no unknown record |
| `Detector.KeepDatabasesAppend` | src/docker/detector.ts:47 | the filter keeps order: it distributes over concatenation |
| `Detector.KeepDatabasesMembers` | src/docker/detector.ts:47 | a record survives the filter exactly when it was in the input and is not unknown |
| `Detector.GetDatabaseContainers` | src/docker/detector.ts:23-48 | discovery fails (TypeError) exactly when some listed container has no name; otherwise every record it returns is a Postgres or MySQL one |
| `Detector.DiscoveryMembers` | src/docker/detector.ts:26-47 | a record is reported exactly when it is the record of some listed container and is not unknown |
| `Detector.DiscoveryAppend` | src/docker/detector.ts:26-47 | discovery of `a + b` is discovery of `a` followed by that of `b`, so the runtime's order is kept |
| `Detector.DiscoverSingle` | src/docker/detector.ts:26-47 | a listing of one named database container is discovered as its record alone |
| `Detector.ParseEntry` | src/docker/detector.ts:60 | the destructured `split('=')`: the key never holds `=`; there is no value exactly when the entry has no `=`, and then the key is the whole entry |
| `Detector.ParseEntryMeaning` | src/docker/detector.ts:60 | when there is a value, the entry reads key, `=`, value, then its end or a second `=`, and the value holds no `=` |
| `Detector.ParseKeyValue` | src/docker/detector.ts:60 | `NAME=value` with no `=` inside either part parses back to exactly that pair |
| `Detector.EnvEntries` | src/docker/detector.ts:56 | `Config.Env`, defaulting to `[]`: the declared entries, or none when `Env` is absent |
| `Detector.EnvMapOf` | src/docker/detector.ts:58-62 | the map the loop builds; the last entry's name is always in it (its exact key set is `EnvMapKeys`, its values `EnvMapLastWins`) |
| `Detector.EnvMapKeys` | src/docker/detector.ts:58-62 | a name is in the map exactly when some entry declares it |
| `Detector.EnvMapOfSnoc` | src/docker/detector.ts:59-62 | each entry sets its own key and leaves the rest of the map alone |
| `Detector.EnvOfPairs` | src/docker/detector.ts:58-62 | for any list of name/value pairs with no `=` inside a name or value, the entries written `NAME=value` give exactly the map of those pairs, later ones overwriting earlier ones |
| `Detector.EnvMapLastWins` | src/docker/detector.ts:59-62 | a name maps to what its last declaring entry gives, so later duplicates overwrite earlier ones |
| `Detector.GetContainerEnv` | src/docker/detector.ts:53-65 | the loop builds exactly `EnvMapOf` of the declared entries; a missing `Env` gives the empty map |
| `Postgres.PreviewStatement` | src/database/postgres.ts:81-83 | the statement is the fixed prefix, the table name and the fixed suffix, with nothing added or dropped |
| `Postgres.PreviewStatementInjective` | src/database/postgres.ts:81-83 | the table name sits verbatim right after the fixed prefix, and distinct names give distinct statements |
| `Postgres.PreviewQuotedIdentifier` | src/database/postgres.ts:81-83 | in the statement text, the span between the opening quote and the next `"` is the table name cut at its first `"`: the whole name exactly when it has no double quote, since nothing is escaped |
| `Postgres.Answer` | src/database/postgres.ts:54 | a query returns the driver's rows unchanged, or the driver's error |
| `Postgres.PostgresInspector.constructor` | src/database/postgres.ts:23 | a fresh inspector holds no client and has sent nothing |
| `Postgres.PostgresInspector.Connect` | src/database/postgres.ts:25-31 | the inspector is connected afterwards whatever it held before; the new client (timeout 5000) is set before the handshake and stays set if the handshake fails; a previous client is not ended |
| `Postgres.PostgresInspector.Disconnect` | src/database/postgres.ts:33-38 | afterwards there is no client; the old client is ended if there was one, and otherwise nothing changes, so a second call does nothing |
| `Postgres.PostgresInspector.ListTables` | src/database/postgres.ts:43-55 | without a client: "Not connected" and no statement sent; otherwise the fixed catalogue statement with no parameters, and the driver's answer; the client is never changed |
| `Postgres.PostgresInspector.GetTableSchema` | src/database/postgres.ts:60-72 | without a client: "Not connected" and nothing sent; otherwise a statement text that does not depend on the table name, with the name as the only bound parameter |
| `Postgres.PostgresInspector.PreviewRows` | src/database/postgres.ts:77-86 | without a client: "Not connected" and nothing sent; otherwise prefix + table name + suffix with `[limit]` (default 5) bound, and the driver's answer |
| `Engine.Lookup` | src/core/engine.ts:32-34 | `env[key]` is defined exactly when the name is declared with a value, and then it is that value |
| `Engine.Or` | src/core/engine.ts:34 | JavaScript's `or` on possibly undefined strings (`Truthy`: defined and non-empty): the result is truthy exactly when either operand is; it is `a` when `a` is truthy, else `b` |
| `Engine.OrElse` | src/core/engine.ts:32-34 | `or` with a string fallback: `a` when truthy, else the fallback, so never empty when the fallback is not |
| `Engine.FirstPortOr` | src/core/engine.ts:31 | the first port, falling back to 5432: the first port when present and non-zero, else 5432, so the port is never 0 |
| `Engine.SchemaConfig` | src/core/engine.ts:49-55 | `getFullSchema`'s configuration: localhost, a non-zero port, 5432 without a container, and with one exactly `InspectConfig`'s (the missing-container case in full is `ConfigSitesAgree`) |
| `Engine.InspectConfig` | src/core/engine.ts:29-35 | host is localhost; port is the first port when there is one and it is non-zero, else 5432; user, password and database take the first defined non-empty value along their `POSTGRES_*` chains, else the defaults |
| `Engine.ConfigSitesAgree` | src/core/engine.ts:49-55 | `getFullSchema`'s copy of the chain builds the same configuration as `inspectContainer`'s when the container is found; without it, the same except port 5432 |
| `Engine.DiscoveredPortUsed` | src/core/engine.ts:31 | for a discovered container, the configuration's port is its first port whenever it has one, since discovery keeps only non-zero ports |
| `Engine.DatabasePrecedence` | src/core/engine.ts:34 | on sample environments: database is `POSTGRES_DB`, else `POSTGRES_USER`, else "postgres", with empty or undefined values falling through (the general chain is `InspectConfig`'s ensures) |
| `Engine.FirstWithId` | src/core/engine.ts:22 | the position of the first container with the id, and no earlier one has it |
| `Engine.FindById` | src/core/engine.ts:22 | `find` fails exactly when no container has the id; otherwise it gives the first container with exactly that id |
| `Engine.FindOwnId` | src/core/engine.ts:22 | a container is found by its own id when no earlier container shares it |
| `Engine.ShopClassified` | src/docker/detector.ts:32-33 | the image `postgres:15` is classified Postgres |
| `Engine.ShopNamed` | src/docker/detector.ts:28 | the name `/shop-db` becomes `shop-db` |
| `Engine.ShopRecord` | src/docker/detector.ts:38-45 | the example container's record, with port 54320 |
| `Engine.ShopDiscovery` | src/docker/detector.ts:26-47 | a one-container listing of the example is discovered as that record |
| `Engine.ThreeEntries` | src/docker/detector.ts:58-62 | three `NAME=value` entries give the map of their three pairs, in order (`EnvOfPairs` for three pairs) |
| `Engine.ShopConfig` | src/core/engine.ts:29-35 | with user admin, password secret and database shop declared, the example resolves to localhost:54320 with those credentials |
| `Engine.PeekEngine.constructor` | src/core/engine.ts:8-11 | the engine owns a fresh, unconnected inspector |
| `Engine.PeekEngine.DiscoverDatabases` | src/core/engine.ts:13-15 | delegates to discovery; only database containers come back |
| `Engine.PeekEngine.InspectContainer` | src/core/engine.ts:17-42 | fails with "Container not found" exactly when discovery succeeds and no container has the id, touching nothing. Otherwise, once inspect answers, the trace grows by open, the table listing and end. It returns the tables with the first matching container and leaves the inspector disconnected. A connect or query error leaves the client in place |
| `Engine.PeekEngine.GetFullSchema` | src/core/engine.ts:44-63 | inspects first. A container missing from discovery still yields a configuration, with port 5432. The trace grows by open, the column query, the 5-row preview and end, and the inspector ends disconnected. An error after connect leaves the client in place |

## Left out

- The Docker socket and `dockerode`: the listing and the inspect answer are inputs. A failing `listContainers` call is not modelled; it would propagate unchanged like a failing inspect does.
- The `pg` client and SQL. The server is an opaque `Database`. What `information_schema` returns, and the order its `ORDER BY` promises, belong to the server.
- A query sent on a client whose handshake failed is answered by the `Database` model like any other. The real driver's behaviour there is not modelled.
- `client.end()` failing is not modelled: `Disconnect` always clears the client.
- `async`/`await` is modelled as sequential steps. The 5000 ms connection timeout is recorded on the client, but timing is not modelled.
- SQL's quote-doubling escape (`""` inside a quoted identifier) is not modelled: `Postgres.PreviewQuotedIdentifier` speaks about the statement text, not about the identifier the server parses from it.
- `toLowerCase` is modelled for ASCII letters only; other Unicode case mappings are not.
- Port numbers are integers. A `NaN` or fractional `PublicPort` or `limit` is not modelled.
- The environment map is a plain map. Special JavaScript object keys such as `__proto__` are not modelled.
- The TypeScript row types `TableInfo` and `ColumnInfo` are compile-time casts, so rows stay untyped `Row` values.
- `src/utils/cli-formatter.ts`, `src/cli.ts`, `debug-docker.ts` and the formatter test are presentation and console wiring with no logic to prove.
- Database listing, full-row fetch, MySQL connection resolution, prefix or name lookup and a table-name allowlist do not exist in the code and are not modelled.
