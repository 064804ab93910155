/** The `metadata!` macro shared by plugins: it builds a plugin's metadata
    from a description and a list of `name => Type` pairs, pushing one
    parameter per pair. */
module Common {
  import opened QueryTypes

  /** `metadata!(description, name1 => T1, ..., nameN => TN)`; a pair carries
      the parameter name and the `Type*` variant its identifier selects. */
  method Metadata(description: string, pairs: seq<(string, ParameterType)>) returns (m: QueryMetadata)
    ensures m.description == description
    ensures |m.parameters| == |pairs|
    ensures forall i :: 0 <= i < |pairs| ==> m.parameters[i] == Parameter(pairs[i].0, pairs[i].1)
  {
    var parameters: seq<Parameter> := [];
    for i := 0 to |pairs|
      invariant |parameters| == i
      invariant forall k :: 0 <= k < i ==> parameters[k] == Parameter(pairs[k].0, pairs[k].1)
    {
      parameters := parameters + [Parameter(pairs[i].0, pairs[i].1)];
    }
    m := QueryMetadata(description, parameters);
  }
}
