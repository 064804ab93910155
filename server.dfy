/** The web service: the catalog listings, the metadata endpoint, the
    execute endpoint's chain of checks and the mapping of every failure to an
    HTTP status and a `{"error": message}` body. Requests arrive already
    routed: the path segments and the decoded JSON body are parameters. */
module Server {
  import opened QueryTypes
  import Json
  import Parse
  import Runner
  import opened Listing

  /** `AppError`. */
  datatype AppError =
    | PluginMetadata
    | PluginMissing(name: string)
    | PluginExecution(plugin: string, connection: string, error: string)
    | ConnectionMissing(name: string)
    | ExecutionParameters(plugin: string, connection: string, error: string)

  /** An HTTP response with a JSON body. */
  datatype Response = Response(status: nat, body: Json.Value)

  const StatusOk: nat := 200
  const StatusBadRequest: nat := 400
  const StatusNotFound: nat := 404
  const StatusInternalServerError: nat := 500

  function ErrorMessage(e: AppError): string
  {
    match e
    case ConnectionMissing(name) => "connection `" + name + "` not found"
    case PluginMetadata => "Error retrieving plugin metadata"
    case PluginMissing(name) => "plugin `" + name + "` not found"
    case PluginExecution(plugin, connection, error) =>
      "plugin `" + plugin + "` failed on connection `" + connection + "`: " + error
    case ExecutionParameters(plugin, connection, error) =>
      "plugin `" + plugin + "` failed on connection `" + connection + "` while parsing parameters: " + error
  }

  /** `json!({"error": message})`. */
  function ErrorBody(message: string): Json.Value
  {
    Json.JObject([("error", Json.JString(message))])
  }

  /** The body of an error response has `error` as its only field, holding the message. */
  lemma ErrorBodyOnlyField(message: string)
    ensures ErrorBody(message).JObject? && |ErrorBody(message).fields| == 1
    ensures Json.Get(ErrorBody(message), "error") == Some(Json.JString(message))
    ensures forall key :: key != "error" ==> Json.Get(ErrorBody(message), key).None?
  {
  }

  /** `IntoResponse for AppError`: missing things are 404, parameter errors
      400, metadata and run failures 500. */
  function IntoResponse(e: AppError): (r: Response)
    ensures r.status == StatusNotFound <==> e.PluginMissing? || e.ConnectionMissing?
    ensures r.status == StatusBadRequest <==> e.ExecutionParameters?
    ensures r.status == StatusInternalServerError <==> e.PluginMetadata? || e.PluginExecution?
    ensures r.body == ErrorBody(ErrorMessage(e))
  {
    var status :=
      match e
      case ConnectionMissing(_) => StatusNotFound
      case PluginMetadata => StatusInternalServerError
      case PluginMissing(_) => StatusNotFound
      case PluginExecution(_, _, _) => StatusInternalServerError
      case ExecutionParameters(_, _, _) => StatusBadRequest;
    Response(status, ErrorBody(ErrorMessage(e)))
  }

  /** The text a run that returns no result answers with. */
  const NoResults: string := "no results returned"

  /** `plugin_execute`: plugin, connection, metadata, parameters, run. */
  function PluginExecute(st: Runner.State, host: Runner.Host, floats: Floats,
                         plugin: string, connection: string, variables: map<string, string>): Result<Json.Value, AppError>
  {
    if plugin !in st.plugins then Err(PluginMissing(plugin))
    else
      var wasm := st.plugins[plugin];
      if connection !in st.connections then Err(ConnectionMissing(connection))
      else
        var conn := st.connections[connection];
        match host.metadata(wasm)
        case Err(_) => Err(PluginMetadata)
        case Ok(metadata) =>
          match Parse.BindParameters(metadata.parameters, variables, floats)
          case Err(err) => Err(ExecutionParameters(plugin, connection, err))
          case Ok(values) =>
            match host.run(conn, wasm, values)
            case Ok(Some(qr)) => Ok(Runner.QueryResultJson(qr))
            case Ok(None) => Ok(Json.JString(NoResults))
            case Err(err) => Err(PluginExecution(plugin, connection, err))
  }

  /** The HTTP answer of the execute endpoint. */
  function HandleExecute(st: Runner.State, host: Runner.Host, floats: Floats,
                         plugin: string, connection: string, variables: map<string, string>): Response
  {
    match PluginExecute(st, host, floats, plugin, connection, variables)
    case Ok(j) => Response(StatusOk, j)
    case Err(e) => IntoResponse(e)
  }

  /** The first failing check alone decides the outcome of `plugin_execute`. */
  lemma PluginExecutePrecedence(st: Runner.State, host: Runner.Host, floats: Floats,
                                plugin: string, connection: string, variables: map<string, string>)
    ensures var r := PluginExecute(st, host, floats, plugin, connection, variables);
      && (plugin !in st.plugins ==> r == Err(PluginMissing(plugin)))
      && (plugin in st.plugins && connection !in st.connections ==> r == Err(ConnectionMissing(connection)))
      && (plugin in st.plugins && connection in st.connections ==>
            var wasm := st.plugins[plugin];
            var md := host.metadata(wasm);
            && (md.Err? ==> r == Err(PluginMetadata))
            && (md.Ok? ==>
                  var bound := Parse.BindParameters(md.value.parameters, variables, floats);
                  && (bound.Err? ==> r == Err(ExecutionParameters(plugin, connection, bound.error)))
                  && (bound.Ok? ==>
                        var run := host.run(st.connections[connection], wasm, bound.value);
                        && (run.Err? ==> r == Err(PluginExecution(plugin, connection, run.error)))
                        && (run.Ok? && run.value.Some? ==> r == Ok(Runner.QueryResultJson(run.value.value)))
                        && (run.Ok? && run.value.None? ==> r == Ok(Json.JString(NoResults))))))
  {
  }

  /** A request for an unknown plugin is answered 404 "plugin `X` not
      found", whatever the connection; a known plugin on an unknown
      connection is answered 404 "connection `X` not found". */
  lemma MissingPluginOrConnection(st: Runner.State, host: Runner.Host, floats: Floats,
                                  plugin: string, connection: string, variables: map<string, string>)
    ensures plugin !in st.plugins ==>
              HandleExecute(st, host, floats, plugin, connection, variables)
                == Response(StatusNotFound, ErrorBody("plugin `" + plugin + "` not found"))
    ensures plugin in st.plugins && connection !in st.connections ==>
              HandleExecute(st, host, floats, plugin, connection, variables)
                == Response(StatusNotFound, ErrorBody("connection `" + connection + "` not found"))
  {
  }

  /** A request whose body lacks a declared parameter is answered 400,
      naming the first missing parameter in declaration order. */
  lemma MissingParameterResponse(st: Runner.State, host: Runner.Host, floats: Floats,
                                 plugin: string, connection: string, variables: map<string, string>, k: nat)
    requires plugin in st.plugins && connection in st.connections
    requires host.metadata(st.plugins[plugin]).Ok?
    requires var ps := host.metadata(st.plugins[plugin]).value.parameters;
             && k < |ps| && ps[k].name !in variables
             && forall i :: 0 <= i < k ==> Parse.BindOne(ps[i], variables, floats).Ok?
    ensures var ps := host.metadata(st.plugins[plugin]).value.parameters;
            HandleExecute(st, host, floats, plugin, connection, variables)
              == Response(StatusBadRequest,
                          ErrorBody("plugin `" + plugin + "` failed on connection `" + connection
                                    + "` while parsing parameters: " + Parse.MissingValueMessage(ps[k].name)))
  {
    var ps := host.metadata(st.plugins[plugin]).value.parameters;
    Parse.BindParametersFirstFailure(ps, k, variables, floats);
  }

  /** The two entry points check in different orders: with a known plugin
      whose parameters do not bind and an unknown connection, the server
      reports the connection (404) while `run_untyped` reports the
      parameter error. */
  lemma ServerChecksConnectionFirst(st: Runner.State, host: Runner.Host, floats: Floats,
                                    plugin: string, connection: string, variables: map<string, string>)
    requires plugin in st.plugins && connection !in st.connections
    requires host.metadata(st.plugins[plugin]).Ok?
    requires Parse.BindParameters(host.metadata(st.plugins[plugin]).value.parameters, variables, floats).Err?
    ensures PluginExecute(st, host, floats, plugin, connection, variables) == Err(ConnectionMissing(connection))
    ensures Runner.RunUntyped(st, host, floats, plugin, connection, variables)
              == Err(Parse.BindParameters(host.metadata(st.plugins[plugin]).value.parameters, variables, floats).error)
  {
  }

  // ---------------------------------------------------------------------
  // Metadata endpoint
  // ---------------------------------------------------------------------

  /** The `PluginMetadata` the metadata endpoint answers with. */
  datatype PluginDescription = PluginDescription(name: string, description: string, parameters: seq<Parameter>)

  /** `plugin_metadata`. */
  function PluginMetadataOf(st: Runner.State, host: Runner.Host, name: string): Result<PluginDescription, AppError>
  {
    if name !in st.plugins then Err(PluginMissing(name))
    else
      match host.metadata(st.plugins[name])
      case Ok(metadata) => Ok(PluginDescription(name, metadata.description, metadata.parameters))
      case Err(_) => Err(PluginMetadata)
  }

  /** The serialized `PluginMetadata`: fields in declaration order, each
      parameter as `{"name": ..., "type": ...}`. */
  function PluginDescriptionJson(d: PluginDescription): Json.Value
  {
    Json.JObject([("name", Json.JString(d.name)),
                  ("description", Json.JString(d.description)),
                  ("parameters", Json.JArray(seq(|d.parameters|, i requires 0 <= i < |d.parameters| => Runner.ParameterToJson(d.parameters[i]))))])
  }

  /** The serialized description reads back as the plugin's name, its
      description and its parameters in order; distinct descriptions
      serialize differently. */
  lemma PluginDescriptionJsonReadBack(d: PluginDescription, e: PluginDescription)
    ensures Json.Get(PluginDescriptionJson(d), "name") == Some(Json.JString(d.name))
    ensures Json.Get(PluginDescriptionJson(d), "description") == Some(Json.JString(d.description))
    ensures Json.Get(PluginDescriptionJson(d), "parameters").Some?
    ensures Json.Get(PluginDescriptionJson(d), "parameters").value.JArray?
    ensures |Json.Get(PluginDescriptionJson(d), "parameters").value.items| == |d.parameters|
    ensures forall i :: 0 <= i < |d.parameters| ==>
              Json.Get(PluginDescriptionJson(d), "parameters").value.items[i] == Runner.ParameterToJson(d.parameters[i])
    ensures PluginDescriptionJson(d) == PluginDescriptionJson(e) <==> d == e
  {
    var f := PluginDescriptionJson(d).fields;
    assert f[..1] == [f[0]] && f[..2] == [f[0], f[1]];
    assert Json.LastField(f, "name") == Json.LastField(f[..2], "name") == Json.LastField(f[..1], "name");
    assert Json.LastField(f, "description") == Json.LastField(f[..2], "description");
    if PluginDescriptionJson(d) == PluginDescriptionJson(e) {
      var g := PluginDescriptionJson(e).fields;
      assert |d.parameters| == |g[2].1.items| == |e.parameters|;
      forall i | 0 <= i < |d.parameters|
        ensures d.parameters[i] == e.parameters[i]
      {
        assert f[2].1.items[i] == g[2].1.items[i];
        Runner.ParameterToJsonReadBack(d.parameters[i], e.parameters[i]);
      }
    }
  }

  function HandleMetadata(st: Runner.State, host: Runner.Host, name: string): Response
  {
    match PluginMetadataOf(st, host, name)
    case Ok(d) => Response(StatusOk, PluginDescriptionJson(d))
    case Err(e) => IntoResponse(e)
  }

  /** Unknown plugin: 404; metadata failure: 500; otherwise the plugin's
      name, its own description, and its declared parameters in order, each
      with its type label. */
  lemma PluginMetadataOutcomes(st: Runner.State, host: Runner.Host, name: string)
    ensures name !in st.plugins ==>
              HandleMetadata(st, host, name) == Response(StatusNotFound, ErrorBody("plugin `" + name + "` not found"))
    ensures name in st.plugins && host.metadata(st.plugins[name]).Err? ==>
              HandleMetadata(st, host, name) == Response(StatusInternalServerError, ErrorBody("Error retrieving plugin metadata"))
    ensures name in st.plugins && host.metadata(st.plugins[name]).Ok? ==>
              var md := host.metadata(st.plugins[name]).value;
              var r := HandleMetadata(st, host, name);
              && r.status == StatusOk
              && Json.Get(r.body, "name") == Some(Json.JString(name))
              && Json.Get(r.body, "description") == Some(Json.JString(md.description))
              && Json.Get(r.body, "parameters").Some?
              && Json.Get(r.body, "parameters").value.JArray?
              && |Json.Get(r.body, "parameters").value.items| == |md.parameters|
              && forall i :: 0 <= i < |md.parameters| ==>
                   Json.Get(r.body, "parameters").value.items[i]
                     == Json.JObject([("name", Json.JString(md.parameters[i].name)),
                                      ("type", Json.JString(Runner.ParameterTypeLabel(md.parameters[i].parameterType)))])
  {
    if name in st.plugins && host.metadata(st.plugins[name]).Ok? {
      var r := HandleMetadata(st, host, name);
      var f := r.body.fields;
      assert f[..1] == [f[0]] && f[..2] == [f[0], f[1]];
      assert Json.LastField(f, "name") == Json.LastField(f[..2], "name") == Json.LastField(f[..1], "name");
      assert Json.LastField(f, "description") == Json.LastField(f[..2], "description");
    }
  }

  // ---------------------------------------------------------------------
  // Catalog listings
  // ---------------------------------------------------------------------

  /** What the connection listing holds: one `{name, db_type}` entry per
      registered connection, strictly ordered by name. */
  ghost predicate IsConnectionListing(st: Runner.State, list: seq<Entry>)
  {
    && |list| == |st.connections|
    && StrictlyByName(list)
    && forall e :: e in list <==> e.name in st.connections && e.detail == Runner.DbType(st.connections[e.name])
  }

  /** What the plugin listing holds: one `{name, description}` entry per
      registered plugin, strictly ordered by name. */
  ghost predicate IsPluginListing(st: Runner.State, host: Runner.Host, list: seq<Entry>)
  {
    && |list| == |st.plugins|
    && StrictlyByName(list)
    && forall e :: e in list <==>
         e.name in st.plugins && host.metadata(st.plugins[e.name]).Ok?
         && e.detail == host.metadata(st.plugins[e.name]).value.description
  }

  /** `connections`: walk the registry in whatever order the map yields, then sort. */
  method Connections(st: Runner.State) returns (list: seq<Entry>)
    ensures IsConnectionListing(st, list)
  {
    var conns: seq<Entry> := [];
    var remaining := st.connections.Keys;
    while remaining != {}
      invariant remaining <= st.connections.Keys
      invariant |conns| + |remaining| == |st.connections|
      invariant forall i :: 0 <= i < |conns| ==>
                  && conns[i].name in st.connections && conns[i].name !in remaining
                  && conns[i].detail == Runner.DbType(st.connections[conns[i].name])
      invariant forall n :: n in st.connections && n !in remaining ==>
                  exists i :: 0 <= i < |conns| && conns[i].name == n
      invariant NamesDistinct(conns)
      decreases |remaining|
    {
      var name :| name in remaining;
      var before := conns;
      conns := conns + [Entry(name, Runner.DbType(st.connections[name]))];
      assert forall i :: 0 <= i < |before| ==> conns[i] == before[i];
      assert conns[|before|].name == name;
      remaining := remaining - {name};
    }
    list := SortEntries(conns);
    ConnectionListingFromBuffer(st, conns, list);
  }

  lemma ConnectionListingFromBuffer(st: Runner.State, conns: seq<Entry>, list: seq<Entry>)
    requires |conns| == |st.connections|
    requires forall i :: 0 <= i < |conns| ==>
               conns[i].name in st.connections && conns[i].detail == Runner.DbType(st.connections[conns[i].name])
    requires forall n :: n in st.connections ==> exists i :: 0 <= i < |conns| && conns[i].name == n
    requires NamesDistinct(conns)
    requires Sorted(list) && multiset(list) == multiset(conns) && NamesDistinct(list)
    ensures IsConnectionListing(st, list)
  {
    SortedDistinctStrict(list);
    forall e | e in list
      ensures e.name in st.connections && e.detail == Runner.DbType(st.connections[e.name])
    {
      assert e in multiset(conns);
      var i :| 0 <= i < |conns| && conns[i] == e;
    }
    forall e: Entry | e.name in st.connections && e.detail == Runner.DbType(st.connections[e.name])
      ensures e in list
    {
      var i :| 0 <= i < |conns| && conns[i].name == e.name;
      assert conns[i] == e;
      assert e in multiset(conns);
    }
    assert |list| == |multiset(list)| == |multiset(conns)| == |conns|;
  }

  /** `plugins`: as `connections`, but the first metadata failure met aborts
      the whole listing. */
  method Plugins(st: Runner.State, host: Runner.Host) returns (r: Result<seq<Entry>, AppError>)
    ensures r.Err? <==> exists n :: n in st.plugins && host.metadata(st.plugins[n]).Err?
    ensures r.Err? ==> r.error == PluginMetadata
    ensures r.Ok? ==> IsPluginListing(st, host, r.value)
  {
    var conns: seq<Entry> := [];
    var remaining := st.plugins.Keys;
    while remaining != {}
      invariant remaining <= st.plugins.Keys
      invariant |conns| + |remaining| == |st.plugins|
      invariant forall n :: n in st.plugins && n !in remaining ==> host.metadata(st.plugins[n]).Ok?
      invariant forall i :: 0 <= i < |conns| ==>
                  && conns[i].name in st.plugins && conns[i].name !in remaining
                  && host.metadata(st.plugins[conns[i].name]).Ok?
                  && conns[i].detail == host.metadata(st.plugins[conns[i].name]).value.description
      invariant forall n :: n in st.plugins && n !in remaining ==>
                  exists i :: 0 <= i < |conns| && conns[i].name == n
      invariant NamesDistinct(conns)
      decreases |remaining|
    {
      var name :| name in remaining;
      var before := conns;
      match host.metadata(st.plugins[name]) {
        case Ok(metadata) =>
          conns := conns + [Entry(name, metadata.description)];
          assert forall i :: 0 <= i < |before| ==> conns[i] == before[i];
          assert conns[|before|].name == name;
        case Err(_) =>
          assert name in st.plugins && host.metadata(st.plugins[name]).Err?;
          return Err(PluginMetadata);
      }
      remaining := remaining - {name};
    }
    var list := SortEntries(conns);
    PluginListingFromBuffer(st, host, conns, list);
    r := Ok(list);
  }

  lemma PluginListingFromBuffer(st: Runner.State, host: Runner.Host, conns: seq<Entry>, list: seq<Entry>)
    requires |conns| == |st.plugins|
    requires forall i :: 0 <= i < |conns| ==>
               && conns[i].name in st.plugins && host.metadata(st.plugins[conns[i].name]).Ok?
               && conns[i].detail == host.metadata(st.plugins[conns[i].name]).value.description
    requires forall n :: n in st.plugins ==> exists i :: 0 <= i < |conns| && conns[i].name == n
    requires NamesDistinct(conns)
    requires Sorted(list) && multiset(list) == multiset(conns) && NamesDistinct(list)
    ensures IsPluginListing(st, host, list)
  {
    SortedDistinctStrict(list);
    forall e | e in list
      ensures e.name in st.plugins && host.metadata(st.plugins[e.name]).Ok?
              && e.detail == host.metadata(st.plugins[e.name]).value.description
    {
      assert e in multiset(conns);
      var i :| 0 <= i < |conns| && conns[i] == e;
    }
    forall e: Entry | e.name in st.plugins && host.metadata(st.plugins[e.name]).Ok?
               && e.detail == host.metadata(st.plugins[e.name]).value.description
      ensures e in list
    {
      var i :| 0 <= i < |conns| && conns[i].name == e.name;
      assert conns[i] == e;
      assert e in multiset(conns);
    }
    assert |list| == |multiset(list)| == |multiset(conns)| == |conns|;
  }

  /** A listing is determined by the registry: the order the map is walked
      in cannot change what the client receives. */
  lemma ListingsUnique(st: Runner.State, host: Runner.Host, a: seq<Entry>, b: seq<Entry>)
    ensures IsConnectionListing(st, a) && IsConnectionListing(st, b) ==> a == b
    ensures IsPluginListing(st, host, a) && IsPluginListing(st, host, b) ==> a == b
  {
    if (IsConnectionListing(st, a) && IsConnectionListing(st, b))
       || (IsPluginListing(st, host, a) && IsPluginListing(st, host, b)) {
      StrictListingUnique(a, b);
    }
  }
}
