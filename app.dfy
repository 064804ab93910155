/** The browser page of one plugin: its five state cells (`metadata`,
    `variables`, `connection`, `results`, `error`) and the handlers that
    update them. HTTP calls are split in two: the handler that starts a call
    returns the request it sends, and the reply arrives later through an
    `On...` method. Response bodies are the JSON documents the server sends. */
module App {
  import opened QueryTypes
  import Json
  import Listing
  import Pairs
  import Server
  import Runner

  /** What a failed call rejects with: an HTTP-client error (with the
      server's response, if one arrived) or any other error (with its
      `toString()`). */
  datatype ClientFailure = HttpFailure(response: Option<Json.Value>) | OtherFailure(text: string)

  /** What a failure handler does to `error`: sets it (`None` standing for
      `undefined`), or throws before setting anything. */
  datatype ErrorUpdate = SetError(value: Option<Json.Value>) | HandlerThrows

  /** `e.response?.data.error` for HTTP-client errors, else `e.toString()`.
      Reading a property of a `null` body throws; of any other non-object it
      is `undefined`. */
  function ErrorUpdateOf(f: ClientFailure): (u: ErrorUpdate)
    ensures f.HttpFailure? && f.response.None? ==> u == SetError(None)
    ensures f.HttpFailure? && f.response.Some? && f.response.value != Json.JNull ==>
              u == SetError(Json.Get(f.response.value, "error"))
    ensures u.HandlerThrows? <==> f == HttpFailure(Some(Json.JNull))
    ensures f.OtherFailure? ==> u == SetError(Some(Json.JString(f.text)))
  {
    match f
    case HttpFailure(None) => SetError(None)
    case HttpFailure(Some(data)) => if data == Json.JNull then HandlerThrows else SetError(Json.Get(data, "error"))
    case OtherFailure(text) => SetError(Some(Json.JString(text)))
  }

  /** Every error the server answers with reaches the page as its message. */
  lemma ServerErrorReachesUser(e: Server.AppError)
    ensures ErrorUpdateOf(HttpFailure(Some(Server.IntoResponse(e).body)))
              == SetError(Some(Json.JString(Server.ErrorMessage(e))))
  {
    Server.ErrorBodyOnlyField(Server.ErrorMessage(e));
  }

  /** `connection || props.connections[0]?.name`: the selection unless it is
      unset or empty, else the first listed connection, else `undefined`. */
  function ChooseConnection(selected: Option<string>, connections: seq<Listing.Entry>): (r: Option<string>)
    ensures selected.Some? && selected.value != "" ==> r == selected
    ensures (selected.None? || selected.value == "") && |connections| > 0 ==> r == Some(connections[0].name)
    ensures (selected.None? || selected.value == "") && |connections| == 0 ==> r.None?
  {
    if selected.Some? && selected.value != "" then selected
    else if |connections| > 0 then Some(connections[0].name)
    else None
  }

  /** `name || ""`. */
  function PluginName(routeName: Option<string>): (r: string)
    ensures routeName.Some? ==> r == routeName.value
    ensures routeName.None? ==> r == ""
  {
    if routeName.Some? then routeName.value else ""
  }

  /** The `IPluginRun` a run sends. */
  datatype RunRequest = RunRequest(plugin: string, connection: Option<string>, variables: map<string, string>)

  /** The `name` of each input the form shows, or `None` when rendering
      throws. `metadata && metadata.parameters && metadata.parameters.map(...)`
      shows nothing when either operand is falsy; a truthy `parameters` that
      is not an array has no `map`, and reading `name` of a `null` element
      throws; otherwise there is one input per element, in order, named by
      the element's `name` (`undefined` for an element that is not an object
      or has no `name`). */
  function InputNames(metadata: Option<Json.Value>): (r: Option<seq<Option<Json.Value>>>)
    ensures metadata.None? ==> r == Some([])
    ensures r.None? ==> metadata.Some? && Json.Get(metadata.value, "parameters").Some?
    ensures forall items: seq<Json.Value> ::
              metadata.Some? && Json.Get(metadata.value, "parameters") == Some(Json.JArray(items)) ==>
                (r.None? <==> Json.JNull in items)
  {
    if metadata.None? || !Json.Truthy(metadata.value) then Some([])
    else
      var parameters := Json.Get(metadata.value, "parameters");
      if parameters.None? || !Json.Truthy(parameters.value) then Some([])
      else if !parameters.value.JArray? then None
      else
        var items := parameters.value.items;
        if Json.JNull in items then None
        else Some(seq(|items|, i requires 0 <= i < |items| => Json.Get(items[i], "name")))
  }

  /** Once the metadata the server sends has arrived, the form shows exactly
      one input per declared parameter, named by it, in declaration order. */
  lemma FormShowsDeclaredParameters(d: Server.PluginDescription)
    ensures InputNames(Some(Server.PluginDescriptionJson(d))).Some?
    ensures |InputNames(Some(Server.PluginDescriptionJson(d))).value| == |d.parameters|
    ensures forall i :: 0 <= i < |d.parameters| ==>
              InputNames(Some(Server.PluginDescriptionJson(d))).value[i] == Some(Json.JString(d.parameters[i].name))
  {
    var j := Server.PluginDescriptionJson(d);
    assert Json.Get(j, "parameters") == Some(j.fields[2].1);
    assert forall i :: 0 <= i < |j.fields[2].1.items| ==> j.fields[2].1.items[i].JObject?;
    forall i | 0 <= i < |d.parameters|
      ensures Json.Get(Runner.ParameterToJson(d.parameters[i]), "name") == Some(Json.JString(d.parameters[i].name))
    {
      var f := Runner.ParameterToJson(d.parameters[i]).fields;
      assert f[..1] == [f[0]];
      assert Json.LastField(f, "name") == Json.LastField(f[..1], "name");
    }
  }

  class PluginView {
    /** The `:name` route parameter; the page stays mounted when it changes. */
    var routeName: Option<string>
    /** `props.connections`, as the connection listing sent them. */
    const connections: seq<Listing.Entry>
    var metadata: Option<Json.Value>
    var variables: map<string, string>
    var connection: Option<string>
    var results: Option<Json.Value>
    var error: Option<Json.Value>

    /** A fresh page: every state cell starts `undefined`, variables empty. */
    constructor(routeName: Option<string>, connections: seq<Listing.Entry>)
      ensures this.routeName == routeName && this.connections == connections
      ensures metadata.None? && variables == map[] && connection.None? && results.None? && error.None?
    {
      this.routeName := routeName;
      this.connections := connections;
      metadata := None;
      variables := map[];
      connection := None;
      results := None;
      error := None;
    }

    /** The effect on mount and after every change of the route name:
        metadata is asked for the route name, unless it is absent or empty. */
    function MetadataRequest(): (r: Option<string>)
      reads this
      ensures r.Some? <==> routeName.Some? && routeName.value != ""
      ensures r.Some? ==> r.value == routeName.value
    {
      if routeName.Some? && routeName.value != "" then routeName else None
    }

    /** The route's `:name` changes while the page stays mounted: the effect
        runs again when the name differs, and every other state cell keeps
        its value (the old metadata stays until the new reply arrives). */
    method RouteChanged(newName: Option<string>) returns (request: Option<string>)
      modifies this
      ensures routeName == newName
      ensures newName != old(routeName) ==> request == MetadataRequest()
      ensures newName == old(routeName) ==> request.None?
      ensures metadata == old(metadata) && variables == old(variables) && connection == old(connection)
      ensures results == old(results) && error == old(error)
    {
      var changed := newName != routeName;
      routeName := newName;
      request := if changed then MetadataRequest() else None;
    }

    /** A metadata reply replaces `metadata`. */
    method OnMetadataLoaded(data: Json.Value)
      modifies this
      ensures metadata == Some(data)
      ensures variables == old(variables) && connection == old(connection)
      ensures results == old(results) && error == old(error) && routeName == old(routeName)
    {
      metadata := Some(data);
    }

    /** A metadata failure sets `error` by the extraction rule. */
    method OnMetadataFailed(f: ClientFailure)
      modifies this
      ensures ErrorUpdateOf(f).SetError? ==> error == ErrorUpdateOf(f).value
      ensures ErrorUpdateOf(f).HandlerThrows? ==> error == old(error)
      ensures metadata == old(metadata) && variables == old(variables)
      ensures connection == old(connection) && results == old(results) && routeName == old(routeName)
    {
      var u := ErrorUpdateOf(f);
      if u.SetError? {
        error := u.value;
      }
    }

    /** `handleInputChange`: one key replaced, all others untouched. */
    method HandleInputChange(name: string, value: string)
      modifies this
      ensures variables == old(variables)[name := value]
      ensures metadata == old(metadata) && connection == old(connection)
      ensures results == old(results) && error == old(error) && routeName == old(routeName)
    {
      variables := variables[name := value];
    }

    /** `handleConnectionChange`: only the selection changes. */
    method HandleConnectionChange(value: string)
      modifies this
      ensures connection == Some(value)
      ensures metadata == old(metadata) && variables == old(variables)
      ensures results == old(results) && error == old(error) && routeName == old(routeName)
    {
      connection := Some(value);
    }

    /** `runPlugin`: clear the error, then send the route name, the chosen
        connection and the variables as they are. */
    method RunPlugin() returns (request: RunRequest)
      modifies this
      ensures error == Some(Json.JString(""))
      ensures request == RunRequest(PluginName(routeName), ChooseConnection(old(connection), connections), old(variables))
      ensures metadata == old(metadata) && variables == old(variables)
      ensures connection == old(connection) && results == old(results) && routeName == old(routeName)
    {
      error := Some(Json.JString(""));
      request := RunRequest(PluginName(routeName), ChooseConnection(connection, connections), variables);
    }

    /** A run reply replaces `results` wholesale. */
    method OnRunSucceeded(data: Json.Value)
      modifies this
      ensures results == Some(data)
      ensures metadata == old(metadata) && variables == old(variables)
      ensures connection == old(connection) && error == old(error) && routeName == old(routeName)
    {
      results := Some(data);
    }

    /** A run failure keeps the old results and sets `error` by the
        extraction rule. */
    method OnRunFailed(f: ClientFailure)
      modifies this
      ensures results == old(results)
      ensures ErrorUpdateOf(f).SetError? ==> error == ErrorUpdateOf(f).value
      ensures ErrorUpdateOf(f).HandlerThrows? ==> error == old(error)
      ensures metadata == old(metadata) && variables == old(variables) && connection == old(connection)
      ensures routeName == old(routeName)
    {
      var u := ErrorUpdateOf(f);
      if u.SetError? {
        error := u.value;
      }
    }

    /** The inputs the form currently shows, or `None` when rendering throws. */
    function FormInputs(): (r: Option<seq<Option<Json.Value>>>)
      reads this
      ensures metadata.None? ==> r == Some([])
      ensures forall items: seq<Json.Value> ::
                metadata.Some? && Json.Get(metadata.value, "parameters") == Some(Json.JArray(items)) ==>
                  (r.None? <==> Json.JNull in items)
    {
      InputNames(metadata)
    }
  }

  /** A whole visit: open the page, type into the inputs in order, leave the
      connection unselected, run, and receive `outcome`. The request carries
      the last value typed for each name and the first listed connection;
      a success shows its result with an empty error, a server failure shows
      the server's message and no result. */
  method Visit(routeName: Option<string>, connections: seq<Listing.Entry>,
               typed: seq<(string, string)>, outcome: Result<Json.Value, Server.AppError>)
    returns (request: RunRequest, results: Option<Json.Value>, error: Option<Json.Value>)
    ensures request.plugin == PluginName(routeName)
    ensures request.connection == (if |connections| > 0 then Some(connections[0].name) else None)
    ensures request.variables == Pairs.Assign(map[], typed)
    ensures outcome.Ok? ==> results == Some(outcome.value) && error == Some(Json.JString(""))
    ensures outcome.Err? ==> results.None? && error == Some(Json.JString(Server.ErrorMessage(outcome.error)))
  {
    var page := new PluginView(routeName, connections);
    for i := 0 to |typed|
      invariant page.variables == Pairs.Assign(map[], typed[..i])
      invariant page.connection.None? && page.results.None?
      invariant page.routeName == routeName && page.connections == connections
    {
      page.HandleInputChange(typed[i].0, typed[i].1);
      assert typed[..i + 1][..i] == typed[..i];
    }
    assert typed[..|typed|] == typed;
    request := page.RunPlugin();
    match outcome {
      case Ok(data) =>
        page.OnRunSucceeded(data);
      case Err(e) =>
        ServerErrorReachesUser(e);
        page.OnRunFailed(HttpFailure(Some(Server.IntoResponse(e).body)));
    }
    results := page.results;
    error := page.error;
  }

  /** Values typed for one plugin survive a change of route: after typing
      `name := value` on the page of plugin `a` and moving to plugin `b`, a
      run of `b` still sends that value. */
  method RouteChangeKeepsVariables(a: string, b: string, connections: seq<Listing.Entry>, name: string, value: string)
    returns (metadataRequest: Option<string>, request: RunRequest)
    ensures a != b && b != "" ==> metadataRequest == Some(b)
    ensures request.plugin == b
    ensures name in request.variables && request.variables[name] == value
  {
    var page := new PluginView(Some(a), connections);
    page.HandleInputChange(name, value);
    metadataRequest := page.RouteChanged(Some(b));
    request := page.RunPlugin();
  }
}
