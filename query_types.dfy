/** The data types shared by the host, the plugins and the server: the
    records of the plugin interface (parameter declarations, typed values,
    variables, query results) and the two wrappers used for optional values
    and fallible operations. */
module QueryTypes {

  datatype Option<+T> = None | Some(value: T)

  /** A fallible result; `E` is the error (a message string for anyhow errors). */
  datatype Result<+T, +E> = Ok(value: T) | Err(error: E)

  /** A 64-bit IEEE float, kept as its bit pattern: floating point is not
      modelled, only carried around. */
  datatype Decimal = Decimal(bits: bv64)

  /** The float operations the model does not define itself: the text parser
      (`str::parse::<f64>`) and the `Display` form of an `f64`. */
  datatype Floats = Floats(parse: string -> Option<Decimal>, show: Decimal -> string)

  /** True when the float is an infinity or a NaN (all exponent bits set). */
  predicate NonFinite(d: Decimal)
  {
    (d.bits >> 52) & 0x7FF == 0x7FF
  }

  /** The declared type of a plugin parameter. */
  datatype ParameterType = TypeBoolean | TypeDecimal | TypeInteger | TypeString | TypeTimestamp

  /** A declared plugin parameter. */
  datatype Parameter = Parameter(name: string, parameterType: ParameterType)

  /** What a plugin says about itself. */
  datatype QueryMetadata = QueryMetadata(description: string, parameters: seq<Parameter>)

  /** The smallest and largest 64-bit signed integers. */
  const I64Min: int := -0x8000_0000_0000_0000
  const I64Max: int := 0x7FFF_FFFF_FFFF_FFFF

  predicate InI64(i: int)
  {
    I64Min <= i <= I64Max
  }

  /** An `i64`: the payload of every integer cell. */
  type I64 = i: int | InI64(i)

  /** An owned, nullable cell value, as returned by a database row or a plugin. */
  datatype ValueResult =
    | DataBoolean(b: Option<bool>)
    | DataDecimal(d: Option<Decimal>)
    | DataInteger(i: Option<I64>)
    | DataString(s: Option<string>)
    | DataTimestamp(t: Option<string>)

  /** The same cell value in the borrowed form handed to a plugin call. */
  datatype ValueParam =
    | DataBoolean(b: Option<bool>)
    | DataDecimal(d: Option<Decimal>)
    | DataInteger(i: Option<I64>)
    | DataString(s: Option<string>)
    | DataTimestamp(t: Option<string>)

  /** A named owned value (`VariableResult`, and the host's `Variable`). */
  datatype VariableResult = VariableResult(name: string, value: ValueResult)

  /** A named value passed to a plugin. */
  datatype VariableParam = VariableParam(name: string, value: ValueParam)

  /** A table: column names and rows of cells. */
  datatype QueryResult = QueryResult(names: seq<string>, values: seq<seq<ValueResult>>)
}
