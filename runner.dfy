/** The host library: combining partial results, rendering cell values as
    text and as JSON, converting values for plugin calls, and the registry
    of connections and plugins with its two run entry points. The WASM
    engine is abstracted as a `Host`: what a plugin module answers when asked
    for its metadata, and what running it on a connection returns. */
module Runner {
  import opened QueryTypes
  import opened Strings
  import Json
  import Parse

  // ---------------------------------------------------------------------
  // Result algebra
  // ---------------------------------------------------------------------

  /** `add_result`: `None` contributes nothing; of two results the first's
      column names are kept and the second's rows are appended. */
  function AddResult(qr1: Option<QueryResult>, qr2: Option<QueryResult>): Option<QueryResult>
  {
    match (qr1, qr2)
    case (None, _) => qr2
    case (_, None) => qr1
    case (Some(a), Some(b)) => Some(QueryResult(a.names, a.values + b.values))
  }

  /** `None` is a left and a right identity of `add_result`. */
  lemma AddResultIdentity(qr: Option<QueryResult>)
    ensures AddResult(None, qr) == qr
    ensures AddResult(qr, None) == qr
  {
  }

  /** Combining two results keeps the first's names and concatenates rows. */
  lemma AddResultCombines(a: QueryResult, b: QueryResult)
    ensures AddResult(Some(a), Some(b)).Some?
    ensures AddResult(Some(a), Some(b)).value.names == a.names
    ensures AddResult(Some(a), Some(b)).value.values == a.values + b.values
  {
  }

  /** Folding order does not matter for grouping: `add_result` is associative. */
  lemma AddResultAssociative(a: Option<QueryResult>, b: Option<QueryResult>, c: Option<QueryResult>)
    ensures AddResult(AddResult(a, b), c) == AddResult(a, AddResult(b, c))
  {
    if a.Some? && b.Some? && c.Some? {
      assert (a.value.values + b.value.values) + c.value.values
          == a.value.values + (b.value.values + c.value.values);
    }
  }

  /** The database drivers' fold: `result = add_result(result, answer)` for
      each answer a plugin gives, starting from `None`. */
  function FoldResults(answers: seq<Option<QueryResult>>): Option<QueryResult>
  {
    if |answers| == 0 then None
    else AddResult(FoldResults(answers[..|answers| - 1]), answers[|answers| - 1])
  }

  /** Every row of every answer, in order. */
  function AllRows(answers: seq<Option<QueryResult>>): seq<seq<ValueResult>>
  {
    if |answers| == 0 then []
    else
      var last := answers[|answers| - 1];
      AllRows(answers[..|answers| - 1]) + (if last.Some? then last.value.values else [])
  }

  /** The fold is `None` exactly when every answer is `None`; otherwise it
      carries the column names of the first answer that is a result and the
      rows of all answers in order. */
  lemma {:induction false} FoldResultsSpec(answers: seq<Option<QueryResult>>)
    ensures FoldResults(answers).None? <==> forall i :: 0 <= i < |answers| ==> answers[i].None?
    ensures FoldResults(answers).Some? ==>
              && FoldResults(answers).value.values == AllRows(answers)
              && exists k :: 0 <= k < |answers| && answers[k].Some?
                             && (forall i :: 0 <= i < k ==> answers[i].None?)
                             && FoldResults(answers).value.names == answers[k].value.names
    decreases |answers|
  {
    if |answers| > 0 {
      var init := answers[..|answers| - 1];
      FoldResultsSpec(init);
      assert forall i :: 0 <= i < |init| ==> init[i] == answers[i];
      if FoldResults(init).Some? {
        var k :| 0 <= k < |init| && init[k].Some?
                 && (forall i :: 0 <= i < k ==> init[i].None?)
                 && FoldResults(init).value.names == init[k].value.names;
        assert answers[k] == init[k];
      } else {
        assert AllRows(init) == [] by { AllRowsOfNones(init); }
      }
    }
  }

  lemma {:induction false} AllRowsOfNones(answers: seq<Option<QueryResult>>)
    requires forall i :: 0 <= i < |answers| ==> answers[i].None?
    ensures AllRows(answers) == []
    decreases |answers|
  {
    if |answers| > 0 {
      AllRowsOfNones(answers[..|answers| - 1]);
    }
  }

  // ---------------------------------------------------------------------
  // Text and JSON renderings
  // ---------------------------------------------------------------------

  const NullText: string := "<null>"

  function BoolText(b: bool): string
  {
    if b then "true" else "false"
  }

  /** `Display for ValueResult`. */
  function DisplayValue(v: ValueResult, floats: Floats): string
  {
    match v
    case DataBoolean(None) => NullText
    case DataBoolean(Some(b)) => BoolText(b)
    case DataDecimal(None) => NullText
    case DataDecimal(Some(d)) => floats.show(d)
    case DataInteger(None) => NullText
    case DataInteger(Some(i)) => IntToString(i)
    case DataString(None) => NullText
    case DataString(Some(s)) => s
    case DataTimestamp(None) => NullText
    case DataTimestamp(Some(t)) => t
  }

  /** The value is a database NULL, whatever its column type. */
  predicate IsNull(v: ValueResult)
  {
    match v
    case DataBoolean(b) => b.None?
    case DataDecimal(d) => d.None?
    case DataInteger(i) => i.None?
    case DataString(s) => s.None?
    case DataTimestamp(t) => t.None?
  }

  /** Every NULL displays as "<null>"; strings and timestamps display verbatim. */
  lemma DisplayNullAndText(v: ValueResult, floats: Floats)
    ensures IsNull(v) ==> DisplayValue(v, floats) == NullText
    ensures v.DataString? && v.s.Some? ==> DisplayValue(v, floats) == v.s.value
    ensures v.DataTimestamp? && v.t.Some? ==> DisplayValue(v, floats) == v.t.value
  {
  }

  /** The parameter type a value's variant corresponds to. */
  function TypeOf(v: ValueResult): ParameterType
  {
    match v
    case DataBoolean(_) => TypeBoolean
    case DataDecimal(_) => TypeDecimal
    case DataInteger(_) => TypeInteger
    case DataString(_) => TypeString
    case DataTimestamp(_) => TypeTimestamp
  }

  /** What is displayed can be read back: parsing the displayed text of a
      non-NULL boolean, integer, string or timestamp as a parameter of
      the same type yields the same value. */
  lemma DisplayParseRoundTrip(v: ValueResult, floats: Floats)
    requires !IsNull(v) && !v.DataDecimal?
    ensures Parse.ParseValue(TypeOf(v), DisplayValue(v, floats), floats) == Ok(AsParamValue(v))
  {
    match v
    case DataBoolean(Some(b)) =>
      Parse.ParseBoolean(BoolText(b), floats);
    case DataInteger(Some(i)) =>
      Parse.ParseIntToString(i);
    case DataString(_) =>
    case DataTimestamp(_) =>
  }

  /** `Display for ParameterType`. */
  function ParameterTypeLabel(t: ParameterType): string
  {
    match t
    case TypeBoolean => "bool"
    case TypeDecimal => "decimal"
    case TypeInteger => "integer"
    case TypeString => "string"
    case TypeTimestamp => "timestamp"
  }

  /** The five labels are distinct, so a label names its type. */
  lemma ParameterTypeLabelInjective(a: ParameterType, b: ParameterType)
    ensures ParameterTypeLabel(a) == ParameterTypeLabel(b) <==> a == b
    ensures ParameterTypeLabel(a) in {"bool", "decimal", "integer", "string", "timestamp"}
  {
    if a != b {
      var la, lb := ParameterTypeLabel(a), ParameterTypeLabel(b);
      assert |la| != |lb| || la[0] != lb[0];
    }
  }

  /** `From<ValueResult> for Value`: a non-finite float serializes as null,
      as serde_json does. */
  function ValueToJson(v: ValueResult): Json.Value
  {
    match v
    case DataBoolean(Some(b)) => Json.JBool(b)
    case DataDecimal(Some(d)) => if NonFinite(d) then Json.JNull else Json.JNumber(d)
    case DataInteger(Some(i)) => Json.JInt(i)
    case DataString(Some(s)) => Json.JString(s)
    case DataTimestamp(Some(t)) => Json.JString(t)
    case _ => Json.JNull
  }

  /** JSON null stands for exactly the NULL values (and non-finite floats);
      a boolean stays a boolean; a string or timestamp becomes a JSON string
      holding the text it displays as. */
  lemma ValueToJsonMeaning(v: ValueResult, floats: Floats)
    ensures ValueToJson(v) == Json.JNull <==> IsNull(v) || (v.DataDecimal? && NonFinite(v.d.value))
    ensures v.DataBoolean? && v.b.Some? ==> ValueToJson(v) == Json.JBool(v.b.value)
    ensures (v.DataString? || v.DataTimestamp?) && !IsNull(v) ==> ValueToJson(v) == Json.JString(DisplayValue(v, floats))
    ensures v.DataInteger? && v.i.Some? ==> ValueToJson(v) == Json.JInt(v.i.value)
  {
  }

  function RowToJson(row: seq<ValueResult>): Json.Value
  {
    Json.JArray(seq(|row|, k requires 0 <= k < |row| => ValueToJson(row[k])))
  }

  function NamesToJson(names: seq<string>): Json.Value
  {
    Json.JArray(seq(|names|, k requires 0 <= k < |names| => Json.JString(names[k])))
  }

  /** `From<QueryResult> for Value`: `{"names": [...], "values": [[...], ...]}`. */
  function QueryResultJson(qr: QueryResult): Json.Value
  {
    Json.JObject([("names", NamesToJson(qr.names)),
                  ("values", Json.JArray(seq(|qr.values|, i requires 0 <= i < |qr.values| => RowToJson(qr.values[i]))))])
  }

  /** The conversion as the source writes it: names mapped, rows pushed one by one. */
  method QueryResultToJson(qr: QueryResult) returns (j: Json.Value)
    ensures j == QueryResultJson(qr)
  {
    var names := NamesToJson(qr.names);
    var rows: seq<Json.Value> := [];
    for i := 0 to |qr.values|
      invariant |rows| == i
      invariant forall k :: 0 <= k < i ==> rows[k] == RowToJson(qr.values[k])
    {
      rows := rows + [RowToJson(qr.values[i])];
    }
    assert rows == seq(|qr.values|, i requires 0 <= i < |qr.values| => RowToJson(qr.values[i]));
    j := Json.JObject([("names", names), ("values", Json.JArray(rows))]);
  }

  /** The JSON form of a result has one string per column name, one array
      per row, and each row keeps its length and cell order. */
  lemma QueryResultJsonShape(qr: QueryResult)
    ensures var j := QueryResultJson(qr);
            && Json.Get(j, "names") == Some(NamesToJson(qr.names))
            && Json.Get(j, "values").Some? && Json.Get(j, "values").value.JArray?
            && |Json.Get(j, "values").value.items| == |qr.values|
            && forall i :: 0 <= i < |qr.values| ==>
                 var row := Json.Get(j, "values").value.items[i];
                 row.JArray? && |row.items| == |qr.values[i]|
                 && forall k :: 0 <= k < |qr.values[i]| ==> row.items[k] == ValueToJson(qr.values[i][k])
  {
    var j := QueryResultJson(qr);
    assert j.fields[1].0 != "names";
    assert j.fields[..1] == [("names", NamesToJson(qr.names))];
    assert Json.LastField(j.fields, "names") == Json.LastField(j.fields[..1], "names");
    assert Json.LastField(j.fields[..1], "names") == Some(NamesToJson(qr.names));
  }

  /** `From<Parameter> for Value` (and `Serialize for Parameter`). */
  function ParameterToJson(p: Parameter): Json.Value
  {
    Json.JObject([("name", Json.JString(p.name)), ("type", Json.JString(ParameterTypeLabel(p.parameterType)))])
  }

  /** A serialized parameter has exactly the fields `name` and `type`, which
      read back as the parameter's name and its type label; the serialization
      loses nothing, so distinct parameters serialize differently. */
  lemma ParameterToJsonReadBack(p: Parameter, q: Parameter)
    ensures Json.Get(ParameterToJson(p), "name") == Some(Json.JString(p.name))
    ensures Json.Get(ParameterToJson(p), "type") == Some(Json.JString(ParameterTypeLabel(p.parameterType)))
    ensures forall key :: key != "name" && key != "type" ==> Json.Get(ParameterToJson(p), key).None?
    ensures ParameterToJson(p) == ParameterToJson(q) <==> p == q
  {
    var f := ParameterToJson(p).fields;
    assert f[..1] == [f[0]];
    assert Json.LastField(f, "name") == Json.LastField(f[..1], "name");
    if ParameterToJson(p) == ParameterToJson(q) {
      ParameterTypeLabelInjective(p.parameterType, q.parameterType);
    }
  }

  // ---------------------------------------------------------------------
  // Values for plugin calls
  // ---------------------------------------------------------------------

  /** The value part of `Variable::as_param`. */
  function AsParamValue(v: ValueResult): ValueParam
  {
    match v
    case DataBoolean(b) => ValueParam.DataBoolean(b)
    case DataDecimal(d) => ValueParam.DataDecimal(d)
    case DataInteger(i) => ValueParam.DataInteger(i)
    case DataString(s) => ValueParam.DataString(s)
    case DataTimestamp(t) => ValueParam.DataTimestamp(t)
  }

  /** `Variable::as_param`: the same name, the same variant, the same payload. */
  function AsParam(v: VariableResult): (p: VariableParam)
    ensures p.name == v.name
  {
    VariableParam(v.name, AsParamValue(v.value))
  }

  /** The owned copy a plugin receives of a borrowed value. */
  function ToOwned(p: ValueParam): ValueResult
  {
    match p
    case DataBoolean(b) => ValueResult.DataBoolean(b)
    case DataDecimal(d) => ValueResult.DataDecimal(d)
    case DataInteger(i) => ValueResult.DataInteger(i)
    case DataString(s) => ValueResult.DataString(s)
    case DataTimestamp(t) => ValueResult.DataTimestamp(t)
  }

  /** Nothing is lost by `as_param`: the owned value comes back intact, so
      distinct variables give distinct parameters. */
  lemma AsParamRoundTrip(v: VariableResult, w: VariableResult)
    ensures AsParam(v).name == v.name && ToOwned(AsParam(v).value) == v.value
    ensures AsParam(v) == AsParam(w) ==> v == w
  {
    if AsParam(v) == AsParam(w) {
      assert ToOwned(AsParam(v).value) == ToOwned(AsParam(w).value);
    }
  }

  /** `PartialEq for Parameter`: it compares every field, so it is equality. */
  function ParameterEq(a: Parameter, b: Parameter): (r: bool)
    ensures r <==> a == b
  {
    a.name == b.name && a.parameterType == b.parameterType
  }

  // ---------------------------------------------------------------------
  // Registry and run entry points
  // ---------------------------------------------------------------------

  /** A configured database connection. The driver handle itself is not
      modelled; the payload stands for the database it reaches (the opened
      SQLite database, the Postgres configuration), so two connections of the
      same kind can reach different databases. */
  datatype DBConnection = SqliteConnection(database: string) | PostgresConnection(config: string)

  /** `DBConnection::db_type`. */
  function DbType(c: DBConnection): string
  {
    match c
    case SqliteConnection(_) => "sqlite"
    case PostgresConnection(_) => "postgres"
  }

  /** Each connection kind reports its own driver name, "sqlite" or "postgres",
      whatever database it reaches. */
  lemma DbTypeDistinct(a: DBConnection, b: DBConnection)
    ensures DbType(a) in {"sqlite", "postgres"}
    ensures DbType(a) == DbType(b) <==> a.SqliteConnection? == b.SqliteConnection?
  {
    if a.SqliteConnection? != b.SqliteConnection? {
      assert DbType(a)[0] != DbType(b)[0];
    }
  }

  /** A compiled plugin, identified by its code. */
  datatype Module = Module(code: seq<bv8>)

  /** The WASM side: a plugin's answer to `metadata`, and the outcome of
      running a plugin on a connection with bound parameters. */
  datatype Host = Host(
    metadata: Module -> Result<QueryMetadata, string>,
    run: (DBConnection, Module, seq<VariableParam>) -> Result<Option<QueryResult>, string>)

  /** `State`: connections and plugins by name. */
  datatype State = State(connections: map<string, DBConnection>, plugins: map<string, Module>)

  /** `State::get_plugin`. */
  function GetPlugin(st: State, plugin: string): (r: Result<Module, string>)
    ensures r.Ok? <==> plugin in st.plugins
    ensures r.Ok? ==> r.value == st.plugins[plugin]
    ensures r.Err? ==> r.error == "no plugin named " + plugin + " registered"
  {
    if plugin in st.plugins then Ok(st.plugins[plugin])
    else Err("no plugin named " + plugin + " registered")
  }

  /** `State::get_connection`. */
  function GetConnection(st: State, connection: string): (r: Result<DBConnection, string>)
    ensures r.Ok? <==> connection in st.connections
    ensures r.Ok? ==> r.value == st.connections[connection]
    ensures r.Err? ==> r.error == "no connection named " + connection + " registered"
  {
    if connection in st.connections then Ok(st.connections[connection])
    else Err("no connection named " + connection + " registered")
  }

  /** `State::run_connection`: look the connection up, then run. */
  function RunConnection(st: State, host: Host, connection: string, wasm: Module, values: seq<VariableParam>): Result<Option<QueryResult>, string>
  {
    match GetConnection(st, connection)
    case Err(e) => Err(e)
    case Ok(conn) => host.run(conn, wasm, values)
  }

  /** `State::run_typed`. */
  function RunTyped(st: State, host: Host, plugin: string, connection: string, values: seq<VariableParam>): Result<Option<QueryResult>, string>
  {
    match GetPlugin(st, plugin)
    case Err(e) => Err(e)
    case Ok(wasm) => RunConnection(st, host, connection, wasm, values)
  }

  /** `State::run_untyped`: plugin, metadata, parameters, then connection. */
  function RunUntyped(st: State, host: Host, floats: Floats, plugin: string, connection: string, variables: map<string, string>): Result<Option<QueryResult>, string>
  {
    match GetPlugin(st, plugin)
    case Err(e) => Err(e)
    case Ok(wasm) =>
      match host.metadata(wasm)
      case Err(e) => Err(e)
      case Ok(md) =>
        match Parse.BindParameters(md.parameters, variables, floats)
        case Err(e) => Err(e)
        case Ok(values) => RunConnection(st, host, connection, wasm, values)
  }

  /** `run_untyped` checks in the order plugin, metadata, parameters,
      connection: a parameter error is reported even when the connection is
      unknown, and runs with untyped and typed parameters agree once the
      parameters bind. */
  lemma RunUntypedOrder(st: State, host: Host, floats: Floats, plugin: string, connection: string, variables: map<string, string>)
    ensures plugin !in st.plugins ==>
              RunUntyped(st, host, floats, plugin, connection, variables) == Err("no plugin named " + plugin + " registered")
    ensures plugin in st.plugins && host.metadata(st.plugins[plugin]).Ok? ==>
              var bound := Parse.BindParameters(host.metadata(st.plugins[plugin]).value.parameters, variables, floats);
              && (bound.Err? ==> RunUntyped(st, host, floats, plugin, connection, variables) == Err(bound.error))
              && (bound.Ok? ==> RunUntyped(st, host, floats, plugin, connection, variables)
                                  == RunTyped(st, host, plugin, connection, bound.value))
              && (bound.Ok? && connection !in st.connections ==>
                    RunUntyped(st, host, floats, plugin, connection, variables)
                      == Err("no connection named " + connection + " registered"))
  {
  }
}
