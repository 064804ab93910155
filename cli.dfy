/** The command line's `run` arguments: each `name=value` argument is split
    at its first '=' and inserted into the variables map. */
module Cli {
  import opened QueryTypes
  import Pairs

  /** `str::split_once`: the text before the first `sep` and everything after it. */
  function SplitOnce(s: string, sep: char): (r: Option<(string, string)>)
    ensures r.None? <==> sep !in s
    ensures r.Some? ==> s == r.value.0 + [sep] + r.value.1 && sep !in r.value.0
  {
    if |s| == 0 then None
    else if s[0] == sep then Some(([], s[1..]))
    else
      match SplitOnce(s[1..], sep)
      case None => None
      case Some(parts) =>
        assert s == [s[0]] + s[1..];
        Some(([s[0]] + parts.0, parts.1))
  }

  /** The split is the only one whose first part holds no `sep`: the name
      ends at the first '=' and the value may hold more of them. */
  lemma SplitOnceUnique(s: string, sep: char, name: string, value: string)
    requires s == name + [sep] + value && sep !in name
    ensures SplitOnce(s, sep) == Some((name, value))
  {
    var r := SplitOnce(s, sep);
    assert s[|name|] == sep;
    var a := r.value.0;
    assert s[|a|] == sep;
    assert forall i :: 0 <= i < |name| ==> s[i] == name[i];
    assert forall i :: 0 <= i < |a| ==> s[i] == a[i];
    assert |a| == |name|;
    assert a == s[..|a|] == name;
    assert r.value.1 == s[|a| + 1..] == value;
  }

  function InvalidParameterMessage(p: string): string
  {
    p + " is not a valid name=value parameter"
  }

  /** The `(name, value)` pairs of arguments that all hold a '='. */
  function ArgumentPairs(params: seq<string>): (pairs: seq<(string, string)>)
    requires forall i :: 0 <= i < |params| ==> '=' in params[i]
    ensures |pairs| == |params|
    ensures forall i :: 0 <= i < |params| ==> Some(pairs[i]) == SplitOnce(params[i], '=')
  {
    seq(|params|, i requires 0 <= i < |params| && '=' in params[i] => SplitOnce(params[i], '=').value)
  }

  /** The parameter loop of `Command::Run`: every argument split and
      inserted in order, or the first argument without '=' reported. */
  method CollectVariables(params: seq<string>) returns (r: Result<map<string, string>, string>)
    ensures r.Ok? <==> forall i :: 0 <= i < |params| ==> '=' in params[i]
    ensures r.Ok? ==> r.value == Pairs.Assign(map[], ArgumentPairs(params))
    ensures r.Err? ==> exists k :: 0 <= k < |params| && '=' !in params[k]
                        && (forall i :: 0 <= i < k ==> '=' in params[i])
                        && r.error == InvalidParameterMessage(params[k])
  {
    var variables: map<string, string> := map[];
    for i := 0 to |params|
      invariant forall k :: 0 <= k < i ==> '=' in params[k]
      invariant variables == Pairs.Assign(map[], ArgumentPairs(params[..i]))
    {
      match SplitOnce(params[i], '=') {
        case Some(parts) =>
          var before := ArgumentPairs(params[..i]);
          var after := ArgumentPairs(params[..i + 1]);
          assert after[..i] == before;
          assert after[i] == parts;
          variables := variables[parts.0 := parts.1];
        case None =>
          return Err(InvalidParameterMessage(params[i]));
      }
    }
    assert params[..|params|] == params;
    r := Ok(variables);
  }

  /** On success the keys are exactly the names given, and a name given
      twice keeps its last value. */
  lemma CollectedVariables(params: seq<string>, name: string)
    requires forall i :: 0 <= i < |params| ==> '=' in params[i]
    ensures var m := Pairs.Assign(map[], ArgumentPairs(params));
            && (name in m <==> exists i :: 0 <= i < |params| && SplitOnce(params[i], '=').value.0 == name)
            && (name in m ==> exists i :: 0 <= i < |params| && SplitOnce(params[i], '=') == Some((name, m[name]))
                                       && forall j :: i < j < |params| ==> SplitOnce(params[j], '=').value.0 != name)
  {
    var pairs := ArgumentPairs(params);
    Pairs.AssignLastWins(map[], pairs, name);
  }

  /** Empty names and empty values are accepted as given. */
  lemma EmptyPartsAccepted(name: string, value: string)
    requires '=' !in name
    ensures SplitOnce("=" + value, '=') == Some(("", value))
    ensures SplitOnce(name + "=", '=') == Some((name, ""))
  {
    SplitOnceUnique("=" + value, '=', "", value);
    SplitOnceUnique(name + "=", '=', name, "");
  }
}
