# query-plugins: the plugin invocation pipeline, modelled in Dafny

query-plugins runs WebAssembly "query plugins" against databases. A plugin
declares a description and typed parameters. The host does the rest:

- Binds the caller's name→string map to the plugin's declared parameters.
- In its postgres driver, rewrites the plugin's `{{name}}` placeholders into positional `$1`, `$2`, ….
- Drives the plugin row by row, folding partial results together.
- Renders the rows as text or JSON.

Requests come from three places:

- an HTTP service, whose `/plugins/:name/:connection` endpoint checks things
  in a fixed order and maps every failure to a status code and an
  `{"error": message}` body;
- a React page that keeps form state and shows the result or the error;
- a command line that reads `name=value` arguments.

This project models that pipeline, file by file:

| Dafny file | module | models |
|---|---|---|
| `query_types.dfy` | `QueryTypes` | the interface types shared by host and plugins (`ValueResult`, `ValueParam`, `Parameter`, `QueryMetadata`, `QueryResult`), `Option`/`Result`, the 64-bit integer range |
| `strings.dfy` | `Strings` | decimal formatting of integers, ASCII lowercasing, the lexicographic order of `String` |
| `json.dfy` | `Json` | JSON documents and the property read a browser does on them |
| `pairs.dfy` | `Pairs` | maps built by assigning name/value pairs in order (later wins) |
| `common.dfy` | `Common` | the `metadata!` macro |
| `parse.dfy` | `Parse` | `parse_value`, `parse_parameter_values`, `positional` (which the postgres driver applies to the plugin's query; the sqlite driver binds `:name` parameters instead), including Rust's `i64` parsing and `str::replace` |
| `runner.dfy` | `Runner` | `add_result`, the `Display` and JSON conversions, `as_param`, `Parameter` equality, the registry lookups and `run_untyped`/`run_typed` |
| `listing.dfy` | `Listing` | the catalog entries, their derived order and sorting |
| `server.dfy` | `Server` | `plugin_execute`, `plugin_metadata`, the `connections`/`plugins` listings and `AppError::into_response` |
| `app.dfy` | `App` | the `Plugin.tsx` component as a class with its five state cells and its handlers |
| `collect.dfy` | `Collect` | the `test-collect` plugin (the buffer state machine) and the host's row/end protocol around it |
| `cli.dfy` | `Cli` | the `name=value` loop of the `run` command |

The model follows the code's form:

- Loops that push or reassign are methods with loop invariants. Each is
  proved equal to a specification function, or to the property it promises.
  These are `parse_parameter_values`, `positional`, `From<QueryResult>`,
  `metadata!`, the listing loops, the CLI loop and the driver fold.
- The stateful plugin `Execution` and the React component are classes with
  `modifies` clauses.
- Pure matches are functions.
- WebAssembly calls are the two functions of a `Runner.Host` value: a
  module's metadata answer, and the outcome of running it on a connection.
  Float parsing and float display are the two functions of a
  `QueryTypes.Floats` value.

## Model

| member | source | states |
|---|---|---|
| Common.Metadata | query-common/src/lib.rs:3-21 | the description is copied verbatim; there is one parameter per `name => Type` pair, in the same order, with that name and that type |
| Parse.ParseI64Correct | query-runner/src/parse.rs:36-39 | integer text parses exactly when it is an optionally signed, non-empty decimal literal whose value lies in the `i64` range, and the result is that value |
| Parse.ParseIntToString | query-runner/src/parse.rs:36-39 | every `i64` read back from its decimal text is itself |
| Parse.ParseBoolean | query-runner/src/parse.rs:29-31 | a boolean parameter never fails; it is true exactly for "true" in any ASCII case, so "TRUE" is true and "something" is false |
| Parse.ParseInteger | query-runner/src/parse.rs:36-39 | an integer parameter succeeds exactly for an in-range literal, with that literal's value; any other text is an error |
| Parse.ParseTextual | query-runner/src/parse.rs:41-42 | string and timestamp parameters never fail and carry the text unchanged |
| Parse.ParseParameterValues | query-runner/src/parse.rs:9-25 | the loop with its early returns computes `BindParameters`: the declared parameters bound in order, stopping at the first failure |
| Parse.BindParametersOk | query-runner/src/parse.rs:13-24 | binding succeeds exactly when every declared parameter binds on its own; the result then has one value per declared parameter, in declaration order, each named after its parameter, and every declared name is present in the map |
| Parse.BindParametersFirstFailure | query-runner/src/parse.rs:14-18 | the first failing parameter in declaration order decides the error; when its name is absent from the map, the error is "no value provided for parameter `<name>`" |
| Parse.BindParametersErrorHasCause | query-runner/src/parse.rs:14-18 | every binding error is the error of the first parameter that fails |
| Parse.BindIgnoresUndeclaredKeys | query-runner/src/parse.rs:14-17 | two maps that agree on the declared names bind identically, so undeclared keys never matter |
| Parse.ReplaceAbsent | query-runner/src/parse.rs:56-59 | `str::replace` leaves a string without the pattern unchanged |
| Parse.PositionalWithoutPlaceholders | query-runner/src/parse.rs:53-61 | a query that holds no parameter's placeholder comes back unchanged, whatever the prefix and offset |
| Parse.PositionalMethod | query-runner/src/parse.rs:47-62 | the loop computes `Positional`; with no parameters the query comes back unchanged |
| Parse.PositionalSubstitutes | query-runner/src/parse.rs:47-62 | for any query made of brace-free text and `{{name}}` placeholders, every placeholder whose name belongs to a parameter becomes `prefix` followed by that parameter's list index plus `offset`; the first parameter with that name wins; all other text is unchanged |
| Parse.PositionalFollowsListOrder | query-runner/src/parse.rs:127-144 | with `you` listed before `world`, "hello {{world}}, how are {{you}}" becomes "hello $2, how are $1" |
| Runner.AddResultIdentity | query-runner/src/lib.rs:63-65 | `None` is a left and a right identity of `add_result` |
| Runner.AddResultCombines | query-runner/src/lib.rs:66-69 | combining two results keeps the first's column names and appends the second's rows after the first's |
| Runner.AddResultAssociative | query-runner/src/lib.rs:59-71 | `add_result` is associative |
| Runner.FoldResultsSpec | query-runner/src/sqlite.rs:97-106 | the drivers' fold is `None` exactly when every answer is `None`; otherwise it has the column names of the first answer that is a result, and all rows of all answers in order |
| Runner.DisplayNullAndText | query-runner/src/lib.rs:226-241 | every NULL displays as "<null>", whatever its variant; strings and timestamps display verbatim |
| Runner.DisplayParseRoundTrip | query-runner/src/lib.rs:226-241 | a non-NULL boolean, integer, string or timestamp, once displayed, parses back to the same value as a parameter of its type |
| Runner.ParameterTypeLabelInjective | query-runner/src/lib.rs:254-264 | each parameter type displays as one of "bool", "decimal", "integer", "string", "timestamp", and distinct types get distinct labels |
| Runner.ValueToJsonMeaning | query-runner/src/lib.rs:266-277 | JSON null comes exactly from the NULL payloads and the non-finite floats; a boolean becomes a JSON bool; a string or timestamp becomes a JSON string with its displayed text; an integer becomes a JSON integer |
| Runner.QueryResultToJson | query-runner/src/lib.rs:279-294 | the push loop builds `QueryResultJson`: an object with `names` and then `values`, one array per row |
| Runner.QueryResultJsonShape | query-runner/src/lib.rs:279-294 | reading `names` gives one string per column name; reading `values` gives one array per row, each with the row's length and its cells in order |
| Runner.ParameterToJsonReadBack | query-runner/src/lib.rs:296-318 | a serialized parameter has exactly the fields `name` and `type`, which read back as its name and its type label; distinct parameters serialize differently |
| Runner.DbTypeDistinct | query-runner/src/lib.rs:37-42 | each connection reports "sqlite" or "postgres", whatever database it reaches; two connections report the same name exactly when they are of the same kind |
| Runner.AsParam | query-runner/src/lib.rs:212-223 | the parameter keeps the variable's name |
| Runner.AsParamRoundTrip | query-runner/src/lib.rs:210-224 | the owned copy of `as_param`'s value is the original value, so `as_param` keeps the variant and the payload |
| Runner.ParameterEq | query-runner/src/lib.rs:320-324 | the hand-written equality holds exactly when the two parameters are equal |
| Runner.GetPlugin | query-runner/src/lib.rs:152-156 | succeeds exactly for a registered name, with its module; otherwise fails with "no plugin named X registered" |
| Runner.GetConnection | query-runner/src/lib.rs:169-173 | succeeds exactly for a registered name, with its connection; otherwise fails with "no connection named X registered" |
| Runner.RunUntypedOrder | query-runner/src/lib.rs:97-129 | `run_untyped` checks the plugin, its metadata, the parameters and then the connection; it reports a binding error even when the connection is unknown; once the parameters bind it behaves as `run_typed` |
| Server.ErrorBodyOnlyField | query-runner-server/src/lib.rs:168-172 | an error body is an object whose only field, `error`, holds the message |
| Server.IntoResponse | query-runner-server/src/lib.rs:147-174 | status 404 exactly for a missing plugin or connection; 400 exactly for a parameter error; 500 exactly for a metadata or run failure; the body carries the formatted message |
| Server.PluginExecutePrecedence | query-runner-server/src/lib.rs:97-136 | checks run in the order plugin, connection, metadata, parameters, run, and the first failure alone decides the error; a run with a result answers its JSON form, one without answers the string "no results returned" |
| Server.MissingPluginOrConnection | query-runner-server/src/lib.rs:102-134 | an unknown plugin is answered 404 "plugin `X` not found" whatever the connection; a known plugin on an unknown connection is answered 404 "connection `X` not found" |
| Server.MissingParameterResponse | query-runner-server/src/lib.rs:107-124 | a body that lacks a declared parameter is answered 400 "plugin `P` failed on connection `C` while parsing parameters: no value provided for parameter `<name>`", naming the first missing parameter |
| Server.ServerChecksConnectionFirst | query-runner-server/src/lib.rs:103-107 | when the plugin is known, its parameters do not bind and the connection is unknown, the server reports the connection while `run_untyped` reports the parameter error |
| Server.PluginDescriptionJsonReadBack | query-runner-server/src/lib.rs:190-196 | the serialized plugin metadata reads back as the plugin's name, its description and its parameters, each serialized as a parameter and in order; distinct metadata serialize differently |
| Server.PluginMetadataOutcomes | query-runner-server/src/lib.rs:76-94 | an unknown plugin gets 404 "plugin `X` not found"; a metadata failure gets 500; otherwise the answer has the plugin's name, its description, and its declared parameters in order as `{"name", "type"}` with the type label |
| Server.Connections | query-runner-server/src/lib.rs:44-54 | whatever order the registry is walked in, the listing has one `{name, db_type}` entry per registered connection and is strictly ordered by name |
| Server.Plugins | query-runner-server/src/lib.rs:57-73 | the listing fails with `PluginMetadata` exactly when some plugin's metadata fails; otherwise it has one `{name, description}` entry per plugin and is strictly ordered by name |
| Server.ListingsUnique | query-runner-server/src/lib.rs:44-73 | two listings that both meet the listing description are equal, so the map's iteration order cannot show |
| Listing.SortEntries | query-runner-server/src/lib.rs:52 | the sort yields a permutation, ordered by name and then by the second field, and keeps distinct names distinct |
| Listing.StrictListingUnique | query-runner-server/src/lib.rs:176-188 | two sequences strictly ordered by name with the same entries are equal |
| App.ErrorUpdateOf | query-runner-app/src/components/Plugin.tsx:62-68 | an HTTP-client error sets `error` to the response's `error` field, or to undefined when there is no response or no such field; a `null` body makes the handler throw before the update; any other error sets its string form |
| App.ServerErrorReachesUser | query-runner-app/src/components/Plugin.tsx:64-66 | for every server error response, the page's `error` becomes the server's message |
| App.ChooseConnection | query-runner-app/src/components/Plugin.tsx:54 | the request uses the selected connection if it is set and non-empty; otherwise the first listed connection's name; otherwise undefined |
| App.PluginName | query-runner-app/src/components/Plugin.tsx:53 | the request names the route's plugin, or "" when the route has none |
| App.FormShowsDeclaredParameters | query-runner-app/src/components/Plugin.tsx:102-116 | with the metadata the server sends, rendering does not throw and the form shows one input per declared parameter, named by it, in declaration order |
| App.PluginView.constructor | query-runner-app/src/components/Plugin.tsx:16-20 | a fresh page has no metadata, no selection, no result, no error and an empty variables map |
| App.PluginView.MetadataRequest | query-runner-app/src/components/Plugin.tsx:22-26 | metadata is requested for the current route name exactly when that name is present and non-empty |
| App.PluginView.RouteChanged | query-runner-app/src/components/Plugin.tsx:22-26 | a new route name while the page stays mounted re-issues the metadata request exactly when the name differs; every other state cell keeps its value |
| App.RouteChangeKeepsVariables | query-runner-app/src/components/Plugin.tsx:14-56 | a value typed on one plugin's page is still sent when a different plugin is run after a route change, and the new plugin's metadata is requested |
| App.PluginView.OnMetadataLoaded | query-runner-app/src/components/Plugin.tsx:30-32 | a metadata reply replaces `metadata` and nothing else |
| App.PluginView.OnMetadataFailed | query-runner-app/src/components/Plugin.tsx:33-40 | a metadata failure updates only `error`, by the extraction rule |
| App.PluginView.HandleInputChange | query-runner-app/src/components/Plugin.tsx:43-46 | the variables map gets `name := value`; every other entry and every other state cell is untouched |
| App.PluginView.HandleConnectionChange | query-runner-app/src/components/Plugin.tsx:47-49 | only the selected connection changes |
| App.PluginView.RunPlugin | query-runner-app/src/components/Plugin.tsx:50-57 | `error` becomes "" before sending; the request carries the plugin name, the chosen connection and the variables unchanged; nothing else changes |
| App.PluginView.OnRunSucceeded | query-runner-app/src/components/Plugin.tsx:59-61 | the reply replaces `results` wholesale and nothing else changes |
| App.PluginView.OnRunFailed | query-runner-app/src/components/Plugin.tsx:62-69 | the old `results` is kept; `error` is set by the extraction rule |
| App.InputNames | query-runner-app/src/components/Plugin.tsx:101-116 | without metadata the form shows no inputs; rendering throws only when `parameters` is present; for a `parameters` array, rendering throws exactly when an element is `null` |
| App.PluginView.FormInputs | query-runner-app/src/components/Plugin.tsx:101-116 | the same for the page's current metadata: no inputs without metadata, and a throw exactly when the `parameters` array holds a `null` |
| App.Visit | query-runner-app/src/components/Plugin.tsx:43-69 | over a whole visit, the request carries the last value typed for each name and the first listed connection; a success shows the result with an empty error; a server failure shows the server's message and no result |
| Pairs.AssignLastWins | query-runner-bin/src/main.rs:83 | after assigning pairs in order, a name is bound exactly when it was bound before or a pair names it, and its value comes from the last pair naming it |
| Collect.Metadata | test-collect/src/lib.rs:15-18 | the plugin declares exactly one parameter, `customer_id` of integer type, under its description |
| Collect.RowValues | test-collect/src/lib.rs:50 | a row's values keep their number and order, names dropped |
| Collect.ReceivedIsSent | query-runner/src/lib.rs:194-200 | after `as_param` on the host side and the owned copy on the plugin side, the plugin sees exactly the values the host read |
| Collect.Execution.Start | test-collect/src/lib.rs:20-29 | a started execution has the fixed query, the given variables and an empty buffer |
| Collect.Execution.QueryString | test-collect/src/lib.rs:39-41 | returns the stored query |
| Collect.Execution.Variables | test-collect/src/lib.rs:43-45 | returns the stored variables |
| Collect.Execution.Row | test-collect/src/lib.rs:47-52 | the row's values are appended at the end of the buffer and the answer is `None` |
| Collect.Execution.End | test-collect/src/lib.rs:54-59 | the answer holds the given columns and the buffered rows in insertion order; the buffer is drained |
| Collect.Drive | query-runner/src/sqlite.rs:70-106 | driving the plugin as the drivers do yields one result holding every row in order under the given columns; a second `end` yields the same columns and no rows |
| Cli.SplitOnce | query-runner-bin/src/main.rs:82 | the split fails exactly when there is no '='; otherwise the argument is name, '=', value, and the name holds no '=' |
| Cli.SplitOnceUnique | query-runner-bin/src/main.rs:82-83 | the name ends at the first '=', and the value is everything after it, further '=' included |
| Cli.CollectVariables | query-runner-bin/src/main.rs:80-87 | succeeds exactly when every argument holds a '=', with the map obtained by inserting the pairs in order; otherwise it fails with "<arg> is not a valid name=value parameter" for the first argument without '=' |
| Cli.CollectedVariables | query-runner-bin/src/main.rs:80-87 | on success, the keys are exactly the names given, and a name given twice keeps its last value |
| Cli.EmptyPartsAccepted | query-runner-bin/src/main.rs:82-83 | "=x" gives an empty name, and "x=" gives an empty value |

## Left out

- WebAssembly hosting (`State::run`, `State::get_metadata`, instantiation, `build_engine`, the store plumbing of `ExecutionState::row`): these are foreign `wasmer` calls. They appear only as the `Runner.Host` functions.
- The database drivers `sqlite.rs` and `postgres.rs`, beyond their result fold: SQL preparation, binding, column typing and `tokio` tasks are library calls. The fold is in `Runner.FoldResults` and `Collect.Drive`.
- Configuration loading (`load_connections`, `load_plugins`, `State::load_from_disk`): file and YAML I/O. A `Runner.State` is given.
- axum routing, CORS, request decoding and the server binary: transport. Endpoints take their path segments and decoded body as arguments.
- `table_result`: a wrapper over the `tabled` library. Only the cell text (`Runner.DisplayValue`) is modelled.
- Floating point: `Decimal` is an opaque 64-bit pattern. Decimal parsing and `{d}` display are the `Floats` functions. Only "non-finite means JSON null" is decided here, from the exponent bits. JSON number formatting is not modelled.
- Serialization of the listing entries to `{"name", "db_type"}` and `{"name", "description"}` objects. The listings are returned as `Listing.Entry` values.
- `tracing` logging, and the CLI's printing and `run_untyped` call after the loop (`main.rs:88-94`).
- React rendering (`QueryResults.tsx` and the other components), the axios services and their URLs.
- The ordering of replies: each reply is a separate method call, so any interleaving can be expressed, but none is singled out.
- Parse.ReplaceAll: follows `str::replace` only for a non-empty pattern. `positional`'s pattern `{{name}}` is never empty.
- Parse.PositionalSubstitutes: covers queries whose literal text holds no '{', and parameter names and prefixes without braces. Text that could create a placeholder out of braces in its surroundings is not covered.
- Runner.DisplayParseRoundTrip: excludes decimals, whose display and parsing are parameters.
- Runner.AsParam: borrowing and lifetimes are not modelled. `ValueParam` holds values, not references.
- App.InputNames: a render that throws is `None`; what the browser then shows (an error boundary or a blank page) is not modelled.
- App.PluginView: `error` and `results` hold JSON values. JavaScript lets a non-string `error` field reach `setError`, and the model keeps that.

## Where the code and other material differ

- Payload types differ between files:
  - `query-runner/src/parse.rs` builds `ValueParam::DataBoolean(bool)`, `DataInteger(i64)` and so on with bare values. Its tests build `ValueResult` with bare values too.
  - `Display for ValueResult` and `as_param` in `query-runner/src/lib.rs:216-241` match on `Option` payloads (`DataBoolean(None)`).
  - The model follows `lib.rs`: every payload is an `Option`, and parsing yields `Some(..)`.
- The description differs:
  - `test-collect/src/lib.rs:16` gives "test plugins collecting results".
  - The server tests (`query-runner-server/tests/config.rs:68`) expect "test plugin collecting results".
  - `Collect.Description` follows the code.
- The client's `IParameter` declares `parameter_type`, while the server sends the field as `type`. `Plugin.tsx` reads only `name`, so the model reads only `name`.
- A failed call that got no response (a network failure) sets `error` to undefined, so the page shows no message; only errors that are not HTTP-client errors show their string form (`App.ErrorUpdateOf`, from `Plugin.tsx:36` and `Plugin.tsx:65`).
- Changing the route to another plugin keeps the page mounted: the variables typed for the previous plugin, the selected connection, the last result and the last error stay, and are sent or shown with the new plugin (`App.RouteChangeKeepsVariables`).
- A run without results is answered with the JSON string "no results returned". `Plugin.tsx` stores any reply as `results` (`App.PluginView.OnRunSucceeded`). The result table expects `names` and `values` fields, which a string does not have.
