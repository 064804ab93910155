/** The reference plugin that collects every row it is sent and returns them
    all at the end, and the host's driving protocol around it: `start`, one
    `row` call per database row folded with `add_result`, then `end`. */
module Collect {
  import opened QueryTypes
  import Common
  import Runner

  const Description: string := "test plugins collecting results"
  const QueryText: string := "SELECT order_id FROM Orders WHERE customer_id = {{customer_id}} ORDER BY order_id"

  /** `Query::metadata`: one integer parameter, `customer_id`. */
  method Metadata() returns (m: QueryMetadata)
    ensures m.description == Description
    ensures m.parameters == [Parameter("customer_id", TypeInteger)]
  {
    m := Common.Metadata(Description, [("customer_id", TypeInteger)]);
  }

  /** The values of a row, names dropped, order kept. */
  function RowValues(row: seq<VariableResult>): (vs: seq<ValueResult>)
    ensures |vs| == |row| && forall i :: 0 <= i < |row| ==> vs[i] == row[i].value
  {
    seq(|row|, i requires 0 <= i < |row| => row[i].value)
  }

  /** What a plugin receives for a row the host sends: `as_param` on the
      host side, the owned copy on the plugin side. */
  function Received(row: seq<VariableResult>): seq<VariableResult>
  {
    seq(|row|, i requires 0 <= i < |row| => VariableResult(Runner.AsParam(row[i]).name, Runner.ToOwned(Runner.AsParam(row[i]).value)))
  }

  /** The plugin sees exactly the values the host read. */
  lemma ReceivedIsSent(row: seq<VariableResult>)
    ensures RowValues(Received(row)) == RowValues(row)
  {
    forall i | 0 <= i < |row|
      ensures Received(row)[i].value == row[i].value
    {
      Runner.AsParamRoundTrip(row[i], row[i]);
    }
  }

  class Execution {
    const queryString: string
    const variables: seq<VariableResult>
    /** The rows buffered so far. */
    var data: seq<seq<ValueResult>>

    /** `Query::start`: the fixed query, the given variables, an empty buffer. */
    constructor Start(variables: seq<VariableResult>)
      ensures queryString == QueryText && this.variables == variables && data == []
    {
      queryString := QueryText;
      this.variables := variables;
      data := [];
    }

    /** `query_string`: the stored query; the buffer is not touched. */
    method QueryString() returns (s: string)
      ensures s == queryString
    {
      s := queryString;
    }

    /** `variables`: the stored variables; the buffer is not touched. */
    method Variables() returns (vs: seq<VariableResult>)
      ensures vs == variables
    {
      vs := variables;
    }

    /** `row`: buffer the row's values at the end; no partial result. */
    method Row(row: seq<VariableResult>) returns (r: Option<QueryResult>)
      modifies this
      ensures r.None?
      ensures data == old(data) + [RowValues(row)]
    {
      data := data + [RowValues(row)];
      r := None;
    }

    /** `end`: the buffered rows under the given column names; the buffer
        is drained, so a second `end` has no rows. */
    method End(columns: seq<string>) returns (r: Option<QueryResult>)
      modifies this
      ensures r == Some(QueryResult(columns, old(data)))
      ensures data == []
    {
      r := Some(QueryResult(columns, data));
      data := [];
    }
  }

  /** The host drives the plugin over `rows` as the database drivers do and
      gets back one result holding every row, in order, under `columns`; a
      second `end` then yields the same columns and no rows. */
  method Drive(variables: seq<VariableResult>, rows: seq<seq<VariableResult>>, columns: seq<string>)
    returns (result: Option<QueryResult>, again: Option<QueryResult>)
    ensures result == Some(QueryResult(columns, seq(|rows|, i requires 0 <= i < |rows| => RowValues(rows[i]))))
    ensures again == Some(QueryResult(columns, []))
  {
    var execution := new Execution.Start(variables);
    result := None;
    for i := 0 to |rows|
      invariant result.None?
      invariant execution.data == seq(i, k requires 0 <= k < i => RowValues(rows[k]))
    {
      ReceivedIsSent(rows[i]);
      var answer := execution.Row(Received(rows[i]));
      result := Runner.AddResult(result, answer);
    }
    var end := execution.End(columns);
    result := Runner.AddResult(result, end);
    again := execution.End(columns);
  }
}
