/** Name/value maps built by assigning pairs one after another, as both the
    command line (`variables.insert(name, value)`) and the browser form
    (`{ ...variables, [name]: value }`) do: a later pair for a name replaces
    an earlier one. */
module Pairs {
  import opened QueryTypes

  /** The map obtained by assigning `pairs` in order to `start`. */
  function Assign(start: map<string, string>, pairs: seq<(string, string)>): map<string, string>
  {
    if |pairs| == 0 then start
    else Assign(start, pairs[..|pairs| - 1])[pairs[|pairs| - 1].0 := pairs[|pairs| - 1].1]
  }

  /** The index of the last pair naming `name`, if any. */
  function LastIndex(pairs: seq<(string, string)>, name: string): (r: Option<nat>)
    ensures r.Some? ==> r.value < |pairs| && pairs[r.value].0 == name
                        && forall j :: r.value < j < |pairs| ==> pairs[j].0 != name
    ensures r.None? ==> forall j :: 0 <= j < |pairs| ==> pairs[j].0 != name
  {
    if |pairs| == 0 then None
    else if pairs[|pairs| - 1].0 == name then Some(|pairs| - 1)
    else LastIndex(pairs[..|pairs| - 1], name)
  }

  /** A name is bound after the assignments exactly when it was bound before
      or some pair names it; the value is that of the last pair naming it,
      else the earlier one. */
  lemma {:induction false} AssignLastWins(start: map<string, string>, pairs: seq<(string, string)>, name: string)
    ensures name in Assign(start, pairs) <==> name in start || exists j :: 0 <= j < |pairs| && pairs[j].0 == name
    ensures LastIndex(pairs, name).Some? ==> Assign(start, pairs)[name] == pairs[LastIndex(pairs, name).value].1
    ensures LastIndex(pairs, name).None? && name in start ==> Assign(start, pairs)[name] == start[name]
    decreases |pairs|
  {
    if |pairs| > 0 {
      var init := pairs[..|pairs| - 1];
      AssignLastWins(start, init, name);
      assert forall j :: 0 <= j < |init| ==> init[j] == pairs[j];
    }
  }
}
