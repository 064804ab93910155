/** Parameter binding and placeholder rewriting: turning the string values a
    caller supplies into typed values in the order the plugin declares its
    parameters, and rewriting `{{name}}` placeholders into positional ones
    (`$1`, `$2`, ...). */
module Parse {
  import opened QueryTypes
  import opened Strings

  // ---------------------------------------------------------------------
  // Integer literals: Rust's `str::parse::<i64>`
  // ---------------------------------------------------------------------

  /** The kinds of `ParseIntError`. */
  datatype IntErrorKind = Empty | InvalidDigit | PosOverflow | NegOverflow

  /** The `Display` text of a `ParseIntError` of each kind. */
  function IntErrorMessage(k: IntErrorKind): string
  {
    match k
    case Empty => "cannot parse integer from empty string"
    case InvalidDigit => "invalid digit found in string"
    case PosOverflow => "number too large to fit in target type"
    case NegOverflow => "number too small to fit in target type"
  }

  /** `i64::from_str`: an optional sign, then digits read left to right; the
      first non-digit or the first overflow ends the parse with an error. */
  function ParseI64(s: string): (r: Result<int, IntErrorKind>)
    ensures r.Ok? ==> InI64(r.value)
  {
    if |s| == 0 then Err(Empty)
    else if |s| == 1 && (s[0] == '+' || s[0] == '-') then Err(InvalidDigit)
    else if s[0] == '+' then Accumulate(s[1..], 0, true)
    else if s[0] == '-' then Accumulate(s[1..], 0, false)
    else Accumulate(s, 0, true)
  }

  /** The digit loop of `from_str_radix`: a positive number grows by
      `acc * 10 + d`, a negative one by `acc * 10 - d`, each step checked. */
  function Accumulate(digits: string, acc: int, positive: bool): (r: Result<int, IntErrorKind>)
    ensures (if positive then 0 <= acc <= I64Max else I64Min <= acc <= 0) && r.Ok? ==> InI64(r.value)
    decreases |digits|
  {
    if |digits| == 0 then Ok(acc)
    else if !IsDigit(digits[0]) then Err(InvalidDigit)
    else if positive then
      var next := acc * 10 + DigitValue(digits[0]);
      if next > I64Max then Err(PosOverflow) else Accumulate(digits[1..], next, true)
    else
      var next := acc * 10 - DigitValue(digits[0]);
      if next < I64Min then Err(NegOverflow) else Accumulate(digits[1..], next, false)
  }

  /** A signed decimal literal: an optional '+' or '-' followed by at least one digit. */
  predicate IsIntLiteral(s: string)
  {
    if |s| > 0 && (s[0] == '+' || s[0] == '-') then |s| > 1 && AllDigits(s[1..])
    else |s| > 0 && AllDigits(s)
  }

  /** The mathematical value of a signed decimal literal. */
  function LiteralValue(s: string): int
    requires IsIntLiteral(s)
  {
    if s[0] == '-' then -(DigitsValue(s[1..]) as int)
    else if s[0] == '+' then DigitsValue(s[1..])
    else DigitsValue(s)
  }

  lemma Regroup(acc: int, c: int, p: int, rest: int)
    ensures acc * (10 * p) + (c * p + rest) == (acc * 10 + c) * p + rest
    ensures acc * (10 * p) - (c * p + rest) == (acc * 10 - c) * p - rest
  {
  }

  lemma MulGrows(x: int, p: int)
    requires p >= 1
    ensures x >= 0 ==> x * p >= x
    ensures x <= 0 ==> x * p <= x
  {
  }

  lemma {:induction false} AccumulatePositive(d: string, acc: int)
    requires AllDigits(d) && 0 <= acc <= I64Max
    ensures var total := acc * Pow10(|d|) + DigitsValue(d);
            Accumulate(d, acc, true) == if total <= I64Max then Ok(total) else Err(PosOverflow)
    decreases |d|
  {
    if |d| > 0 {
      var c := DigitValue(d[0]);
      var next := acc * 10 + c;
      var p := Pow10(|d| - 1);
      var rest := DigitsValue(d[1..]);
      DigitsValueCons(d);
      assert Pow10(|d|) == 10 * p;
      Regroup(acc, c, p, rest);
      assert acc * Pow10(|d|) + DigitsValue(d) == next * p + rest;
      if next <= I64Max {
        AccumulatePositive(d[1..], next);
      } else {
        MulGrows(next, p);
      }
    }
  }

  lemma {:induction false} AccumulateNegative(d: string, acc: int)
    requires AllDigits(d) && I64Min <= acc <= 0
    ensures var total := acc * Pow10(|d|) - DigitsValue(d);
            Accumulate(d, acc, false) == if total >= I64Min then Ok(total) else Err(NegOverflow)
    decreases |d|
  {
    if |d| > 0 {
      var c := DigitValue(d[0]);
      var next := acc * 10 - c;
      var p := Pow10(|d| - 1);
      var rest := DigitsValue(d[1..]);
      DigitsValueCons(d);
      assert Pow10(|d|) == 10 * p;
      Regroup(acc, c, p, rest);
      assert acc * Pow10(|d|) - DigitsValue(d) == next * p - rest;
      if next >= I64Min {
        AccumulateNegative(d[1..], next);
      } else {
        MulGrows(next, p);
      }
    }
  }

  lemma {:induction false} AccumulateNeedsDigits(d: string, acc: int, positive: bool)
    requires Accumulate(d, acc, positive).Ok?
    ensures AllDigits(d)
    decreases |d|
  {
    if |d| > 0 {
      var next := if positive then acc * 10 + DigitValue(d[0]) else acc * 10 - DigitValue(d[0]);
      AccumulateNeedsDigits(d[1..], next, positive);
      assert forall i :: 1 <= i < |d| ==> d[i] == d[1..][i - 1];
    }
  }

  /** Integer parsing succeeds exactly on signed decimal literals whose value
      fits in 64 bits, and then yields that value. */
  lemma ParseI64Correct(s: string)
    ensures ParseI64(s).Ok? <==> IsIntLiteral(s) && InI64(LiteralValue(s))
    ensures ParseI64(s).Ok? ==> ParseI64(s).value == LiteralValue(s)
  {
    if |s| > 1 && (s[0] == '+' || s[0] == '-') {
      var d := s[1..];
      if ParseI64(s).Ok? {
        AccumulateNeedsDigits(d, 0, s[0] == '+');
      }
      if AllDigits(d) {
        if s[0] == '+' { AccumulatePositive(d, 0); } else { AccumulateNegative(d, 0); }
      }
    } else if |s| > 0 && s[0] != '+' && s[0] != '-' {
      if ParseI64(s).Ok? {
        AccumulateNeedsDigits(s, 0, true);
      }
      if AllDigits(s) {
        AccumulatePositive(s, 0);
      }
    }
  }

  /** Reading back what `Display` writes: every 64-bit integer survives a
      round trip through its decimal text. */
  lemma ParseIntToString(i: int)
    requires InI64(i)
    ensures ParseI64(IntToString(i)) == Ok(i)
  {
    var s := IntToString(i);
    if i < 0 {
      assert s[1..] == NatToString(-i);
    }
    ParseI64Correct(s);
  }

  // ---------------------------------------------------------------------
  // Typed values from text
  // ---------------------------------------------------------------------

  /** `ParseFloatError`'s `Display` text. */
  function FloatErrorMessage(text: string): string
  {
    if text == "" then "cannot parse float from empty string" else "invalid float literal"
  }

  /** `parse_value`: the typed value a parameter of type `typ` gets from `text`. */
  function ParseValue(typ: ParameterType, text: string, floats: Floats): Result<ValueParam, string>
  {
    match typ
    case TypeBoolean => Ok(ValueParam.DataBoolean(Some(AsciiLowercase(text) == "true")))
    case TypeDecimal =>
      (match floats.parse(text)
       case Some(d) => Ok(ValueParam.DataDecimal(Some(d)))
       case None => Err(FloatErrorMessage(text)))
    case TypeInteger =>
      (match ParseI64(text)
       case Ok(i) => Ok(ValueParam.DataInteger(Some(i)))
       case Err(k) => Err(IntErrorMessage(k)))
    case TypeTimestamp => Ok(ValueParam.DataTimestamp(Some(text)))
    case TypeString => Ok(ValueParam.DataString(Some(text)))
  }

  /** The texts a boolean parameter reads as true: "true" in any ASCII case. */
  predicate IsTrueText(text: string)
  {
    && |text| == 4
    && (text[0] == 't' || text[0] == 'T')
    && (text[1] == 'r' || text[1] == 'R')
    && (text[2] == 'u' || text[2] == 'U')
    && (text[3] == 'e' || text[3] == 'E')
  }

  /** A boolean parameter never fails; it is true exactly for "true" in any
      ASCII case ("TRUE" is true, "something" is false). */
  lemma ParseBoolean(text: string, floats: Floats)
    ensures ParseValue(TypeBoolean, text, floats) == Ok(ValueParam.DataBoolean(Some(IsTrueText(text))))
  {
    var lower := AsciiLowercase(text);
    if IsTrueText(text) {
      assert lower == "true";
    } else if |text| == 4 {
      assert lower[0] != 't' || lower[1] != 'r' || lower[2] != 'u' || lower[3] != 'e';
    }
  }

  /** An integer parameter succeeds exactly for a literal in the 64-bit range,
      with that literal's value; every other text is an error. */
  lemma ParseInteger(text: string, floats: Floats)
    ensures ParseValue(TypeInteger, text, floats).Ok? <==> IsIntLiteral(text) && InI64(LiteralValue(text))
    ensures ParseValue(TypeInteger, text, floats).Ok? ==>
              ParseValue(TypeInteger, text, floats).value == ValueParam.DataInteger(Some(LiteralValue(text)))
  {
    ParseI64Correct(text);
  }

  /** Only numeric parameters can fail; string and timestamp parameters take
      the text unchanged. */
  lemma ParseTextual(text: string, floats: Floats)
    ensures ParseValue(TypeString, text, floats) == Ok(ValueParam.DataString(Some(text)))
    ensures ParseValue(TypeTimestamp, text, floats) == Ok(ValueParam.DataTimestamp(Some(text)))
  {
  }

  // ---------------------------------------------------------------------
  // Binding the declared parameters
  // ---------------------------------------------------------------------

  function MissingValueMessage(name: string): string
  {
    "no value provided for parameter `" + name + "`"
  }

  /** One step of `parse_parameter_values`: look the parameter up, then parse. */
  function BindOne(p: Parameter, values: map<string, string>, floats: Floats): Result<VariableParam, string>
  {
    if p.name !in values then Err(MissingValueMessage(p.name))
    else
      match ParseValue(p.parameterType, values[p.name], floats)
      case Ok(v) => Ok(VariableParam(p.name, v))
      case Err(e) => Err(e)
  }

  /** What `parse_parameter_values` computes: the declared parameters bound
      in order, stopping at the first one that fails. */
  function BindParameters(parameters: seq<Parameter>, values: map<string, string>, floats: Floats): Result<seq<VariableParam>, string>
  {
    if |parameters| == 0 then Ok([])
    else
      match BindParameters(parameters[..|parameters| - 1], values, floats)
      case Err(e) => Err(e)
      case Ok(vs) =>
        match BindOne(parameters[|parameters| - 1], values, floats)
        case Err(e) => Err(e)
        case Ok(v) => Ok(vs + [v])
  }

  lemma {:induction false} BindErrorPersists(parameters: seq<Parameter>, n: nat, values: map<string, string>, floats: Floats)
    requires n <= |parameters|
    requires BindParameters(parameters[..n], values, floats).Err?
    ensures BindParameters(parameters, values, floats) == BindParameters(parameters[..n], values, floats)
    decreases |parameters|
  {
    if n < |parameters| {
      var init := parameters[..|parameters| - 1];
      assert init[..n] == parameters[..n];
      BindErrorPersists(init, n, values, floats);
    } else {
      assert parameters[..n] == parameters;
    }
  }

  /** `parse_parameter_values`. */
  method ParseParameterValues(parameters: seq<Parameter>, paramValues: map<string, string>, floats: Floats)
    returns (r: Result<seq<VariableParam>, string>)
    ensures r == BindParameters(parameters, paramValues, floats)
  {
    var values: seq<VariableParam> := [];
    for i := 0 to |parameters|
      invariant BindParameters(parameters[..i], paramValues, floats) == Ok(values)
    {
      var param := parameters[i];
      assert parameters[..i + 1][..i] == parameters[..i];
      if param.name !in paramValues {
        r := Err(MissingValueMessage(param.name));
        BindErrorPersists(parameters, i + 1, paramValues, floats);
        return;
      }
      var value := ParseValue(param.parameterType, paramValues[param.name], floats);
      if value.Err? {
        r := Err(value.error);
        BindErrorPersists(parameters, i + 1, paramValues, floats);
        return;
      }
      values := values + [VariableParam(param.name, value.value)];
    }
    assert parameters[..|parameters|] == parameters;
    r := Ok(values);
  }

  /** On success there is exactly one value per declared parameter, in
      declaration order, carrying that parameter's name and parsed text;
      and binding succeeds exactly when every parameter binds on its own. */
  lemma {:induction false} BindParametersOk(parameters: seq<Parameter>, values: map<string, string>, floats: Floats)
    ensures BindParameters(parameters, values, floats).Ok? <==>
              forall i :: 0 <= i < |parameters| ==> BindOne(parameters[i], values, floats).Ok?
    ensures BindParameters(parameters, values, floats).Ok? ==>
              var vs := BindParameters(parameters, values, floats).value;
              && |vs| == |parameters|
              && forall i :: 0 <= i < |parameters| ==>
                   && vs[i].name == parameters[i].name
                   && parameters[i].name in values
                   && vs[i] == BindOne(parameters[i], values, floats).value
    decreases |parameters|
  {
    if |parameters| > 0 {
      var init := parameters[..|parameters| - 1];
      BindParametersOk(init, values, floats);
      assert forall i :: 0 <= i < |init| ==> init[i] == parameters[i];
    }
  }

  /** The first parameter in declaration order that fails to bind alone
      decides the error: a missing value yields "no value provided for
      parameter `<name>`", a bad text its parse error. */
  lemma {:induction false} BindParametersFirstFailure(parameters: seq<Parameter>, k: nat, values: map<string, string>, floats: Floats)
    requires k < |parameters|
    requires forall i :: 0 <= i < k ==> BindOne(parameters[i], values, floats).Ok?
    requires BindOne(parameters[k], values, floats).Err?
    ensures BindParameters(parameters, values, floats) == Err(BindOne(parameters[k], values, floats).error)
    ensures parameters[k].name !in values ==>
              BindParameters(parameters, values, floats) == Err(MissingValueMessage(parameters[k].name))
  {
    var prefix := parameters[..k];
    BindParametersOk(prefix, values, floats);
    assert parameters[..k + 1][..k] == prefix;
    BindErrorPersists(parameters, k + 1, values, floats);
  }

  /** Every failure is the failure of some first parameter that does not bind. */
  lemma {:induction false} BindParametersErrorHasCause(parameters: seq<Parameter>, values: map<string, string>, floats: Floats)
    requires BindParameters(parameters, values, floats).Err?
    ensures exists k :: 0 <= k < |parameters|
              && (forall i :: 0 <= i < k ==> BindOne(parameters[i], values, floats).Ok?)
              && BindOne(parameters[k], values, floats) == Err(BindParameters(parameters, values, floats).error)
    decreases |parameters|
  {
    var init := parameters[..|parameters| - 1];
    var last := |parameters| - 1;
    if BindParameters(init, values, floats).Err? {
      BindParametersErrorHasCause(init, values, floats);
      var k :| 0 <= k < |init|
              && (forall i :: 0 <= i < k ==> BindOne(init[i], values, floats).Ok?)
              && BindOne(init[k], values, floats) == Err(BindParameters(init, values, floats).error);
      assert forall i :: 0 <= i <= k ==> init[i] == parameters[i];
    } else {
      BindParametersOk(init, values, floats);
      assert forall i :: 0 <= i < last ==> init[i] == parameters[i];
      assert BindOne(parameters[last], values, floats) == Err(BindParameters(parameters, values, floats).error);
    }
  }

  /** Two maps that agree on the declared names bind to the same outcome:
      keys that no parameter names are ignored. */
  lemma {:induction false} BindIgnoresUndeclaredKeys(parameters: seq<Parameter>, m1: map<string, string>, m2: map<string, string>, floats: Floats)
    requires forall i :: 0 <= i < |parameters| ==>
               (parameters[i].name in m1 <==> parameters[i].name in m2)
               && (parameters[i].name in m1 ==> m1[parameters[i].name] == m2[parameters[i].name])
    ensures BindParameters(parameters, m1, floats) == BindParameters(parameters, m2, floats)
    decreases |parameters|
  {
    if |parameters| > 0 {
      var init := parameters[..|parameters| - 1];
      assert forall i :: 0 <= i < |init| ==> init[i] == parameters[i];
      BindIgnoresUndeclaredKeys(init, m1, m2, floats);
      assert BindOne(parameters[|parameters| - 1], m1, floats) == BindOne(parameters[|parameters| - 1], m2, floats);
    }
  }

  // ---------------------------------------------------------------------
  // Positional placeholders
  // ---------------------------------------------------------------------

  /** Rust's `str::replace` for a non-empty pattern: every non-overlapping
      occurrence, found left to right, is replaced; replacements are not rescanned. */
  function ReplaceAll(s: string, pattern: string, rep: string): string
    requires |pattern| > 0
    decreases |s|
  {
    if |s| < |pattern| then s
    else if s[..|pattern|] == pattern then rep + ReplaceAll(s[|pattern|..], pattern, rep)
    else [s[0]] + ReplaceAll(s[1..], pattern, rep)
  }

  /** `pattern` occurs in `s` starting at index `i`. */
  predicate OccursAt(s: string, pattern: string, i: int)
  {
    0 <= i <= |s| - |pattern| && s[i..i + |pattern|] == pattern
  }

  /** A string in which the pattern does not occur is left unchanged. */
  lemma {:induction false} ReplaceAbsent(s: string, pattern: string, rep: string)
    requires |pattern| > 0
    requires forall i :: !OccursAt(s, pattern, i)
    ensures ReplaceAll(s, pattern, rep) == s
    decreases |s|
  {
    if |s| >= |pattern| {
      assert !OccursAt(s, pattern, 0);
      var t := s[1..];
      forall i
        ensures !OccursAt(t, pattern, i)
      {
        assert !OccursAt(s, pattern, i + 1);
        if 0 <= i <= |t| - |pattern| {
          assert t[i..i + |pattern|] == s[i + 1..i + 1 + |pattern|];
        }
      }
      ReplaceAbsent(t, pattern, rep);
      assert [s[0]] + t == s;
    }
  }

  /** `{{name}}`. */
  function Placeholder(name: string): (p: string)
    ensures |p| == |name| + 4 && p[0] == '{' && p[1] == '{'
  {
    "{{" + name + "}}"
  }

  /** What `positional` computes: for the i-th parameter, in list order,
      every `{{name}}` becomes `prefix` followed by `i + offset`. */
  function Positional(prefix: string, offset: nat, query: string, params: seq<VariableResult>): string
  {
    if |params| == 0 then query
    else
      var i := |params| - 1;
      ReplaceAll(Positional(prefix, offset, query, params[..i]), Placeholder(params[i].name), prefix + NatToString(i + offset))
  }

  /** `positional`. */
  method PositionalMethod(prefix: string, offset: nat, query: string, params: seq<VariableResult>)
    returns (replaced: string)
    ensures replaced == Positional(prefix, offset, query, params)
    ensures |params| == 0 ==> replaced == query
  {
    replaced := query;
    for ix := 0 to |params|
      invariant replaced == Positional(prefix, offset, query, params[..ix])
    {
      assert params[..ix + 1][..ix] == params[..ix];
      replaced := ReplaceAll(replaced, Placeholder(params[ix].name), prefix + NatToString(ix + offset));
    }
    assert params[..|params|] == params;
  }

  /** A query that holds no placeholder of any parameter comes back unchanged. */
  lemma {:induction false} PositionalWithoutPlaceholders(prefix: string, offset: nat, query: string, params: seq<VariableResult>)
    requires forall k, i :: 0 <= k < |params| ==> !OccursAt(query, Placeholder(params[k].name), i)
    ensures Positional(prefix, offset, query, params) == query
    decreases |params|
  {
    if |params| > 0 {
      var n := |params| - 1;
      PositionalWithoutPlaceholders(prefix, offset, query, params[..n]);
      assert forall i :: !OccursAt(query, Placeholder(params[n].name), i);
      ReplaceAbsent(query, Placeholder(params[n].name), prefix + NatToString(n + offset));
    }
  }

  /** A query seen as literal text interleaved with placeholders. */
  datatype Segment = Text(text: string) | Hole(name: string)

  function RenderOne(seg: Segment): string
  {
    match seg
    case Text(t) => t
    case Hole(n) => Placeholder(n)
  }

  function Render(segs: seq<Segment>): string
  {
    if |segs| == 0 then "" else RenderOne(segs[0]) + Render(segs[1..])
  }

  predicate NoOpenBrace(s: string)
  {
    forall i :: 0 <= i < |s| ==> s[i] != '{'
  }

  predicate BraceFree(s: string)
  {
    forall i :: 0 <= i < |s| ==> s[i] != '{' && s[i] != '}'
  }

  /** Literal text holds no '{' and placeholder names no braces at all, so a
      placeholder can only be found where one was written. */
  predicate WellFormed(segs: seq<Segment>)
  {
    forall i :: 0 <= i < |segs| ==>
      match segs[i]
      case Text(t) => NoOpenBrace(t)
      case Hole(n) => BraceFree(n)
  }

  /** The position of the first parameter with this name. */
  function FirstIndex(params: seq<VariableResult>, name: string): (r: Option<nat>)
    ensures r.Some? ==> r.value < |params| && params[r.value].name == name
                        && forall j :: 0 <= j < r.value ==> params[j].name != name
    ensures r.None? ==> forall j :: 0 <= j < |params| ==> params[j].name != name
  {
    if |params| == 0 then None
    else if params[0].name == name then Some(0)
    else
      match FirstIndex(params[1..], name)
      case None => None
      case Some(k) => Some(k + 1)
  }

  /** The segments after rewriting: a placeholder whose name is the i-th
      parameter's (first match) becomes `prefix` + `i + offset`; others stay. */
  function Substitute(segs: seq<Segment>, params: seq<VariableResult>, prefix: string, offset: nat): seq<Segment>
  {
    seq(|segs|, i requires 0 <= i < |segs| =>
      match segs[i]
      case Text(t) => Text(t)
      case Hole(n) =>
        match FirstIndex(params, n)
        case Some(k) => Text(prefix + NatToString(k + offset))
        case None => Hole(n))
  }

  function ReplaceHole(segs: seq<Segment>, name: string, rep: string): (r: seq<Segment>)
    ensures |r| == |segs|
  {
    seq(|segs|, i requires 0 <= i < |segs| => if segs[i] == Hole(name) then Text(rep) else segs[i])
  }

  lemma NoMatchAtStart(s: string, pattern: string, rep: string)
    requires |pattern| > 0 && |s| > 0
    requires |s| >= |pattern| ==> s[..|pattern|] != pattern
    ensures ReplaceAll(s, pattern, rep) == [s[0]] + ReplaceAll(s[1..], pattern, rep)
  {
    if |s| < |pattern| {
      assert [s[0]] + s[1..] == s;
    }
  }

  lemma {:induction false} SkipNoBrace(t: string, rest: string, pattern: string, rep: string)
    requires |pattern| > 0 && pattern[0] == '{' && NoOpenBrace(t)
    ensures ReplaceAll(t + rest, pattern, rep) == t + ReplaceAll(rest, pattern, rep)
    decreases |t|
  {
    if |t| == 0 {
      assert t + rest == rest;
    } else {
      var s := t + rest;
      assert |s| >= |pattern| ==> s[..|pattern|][0] == t[0];
      NoMatchAtStart(s, pattern, rep);
      assert s[1..] == t[1..] + rest;
      SkipNoBrace(t[1..], rest, pattern, rep);
    }
  }

  lemma PlaceholderDiffers(m: string, n: string, rest: string)
    requires BraceFree(m) && BraceFree(n) && m != n
    ensures var s, pat := Placeholder(m) + rest, Placeholder(n);
            |s| >= |pat| ==> s[..|pat|] != pat
  {
    var s, pat := Placeholder(m) + rest, Placeholder(n);
    if |s| >= |pat| {
      var k: int;
      if |n| == |m| {
        k :| 0 <= k < |m| && m[k] != n[k];
        k := k + 2;
      } else if |n| < |m| {
        k := |n| + 2;
        assert pat[k] == '}' && s[k] == m[|n|];
      } else {
        k := |m| + 2;
        assert pat[k] == n[|m|] && s[k] == '}';
      }
      assert s[..|pat|][k] != pat[k];
    }
  }

  lemma SecondBraceDiffers(t: string, rest: string, pat: string)
    requires |pat| >= 2 && pat[1] == '{' && |t| > 0 && t[0] != '{'
    ensures var s := "{" + t + rest; |s| >= |pat| ==> s[..|pat|] != pat
  {
    var s := "{" + t + rest;
    if |s| >= |pat| {
      assert s[..|pat|][1] == t[0];
    }
  }

  /** A placeholder for another brace-free name is never mistaken for this one. */
  lemma SkipOtherHole(m: string, n: string, rest: string, rep: string)
    requires BraceFree(m) && BraceFree(n) && m != n
    ensures ReplaceAll(Placeholder(m) + rest, Placeholder(n), rep) == Placeholder(m) + ReplaceAll(rest, Placeholder(n), rep)
  {
    var pat := Placeholder(n);
    var tail := m + "}}";
    assert NoOpenBrace(tail);
    var s := Placeholder(m) + rest;
    var s1 := "{" + tail + rest;
    assert s == "{" + s1;
    PlaceholderDiffers(m, n, rest);
    NoMatchAtStart(s, pat, rep);
    assert s[1..] == s1;
    SecondBraceDiffers(tail, rest, pat);
    NoMatchAtStart(s1, pat, rep);
    assert s1[1..] == tail + rest;
    SkipNoBrace(tail, rest, pat, rep);
    assert "{" + ("{" + tail) == Placeholder(m);
  }

  lemma ReplaceOwnHole(n: string, rest: string, rep: string)
    ensures ReplaceAll(Placeholder(n) + rest, Placeholder(n), rep) == rep + ReplaceAll(rest, Placeholder(n), rep)
  {
    var s := Placeholder(n) + rest;
    assert s[..|Placeholder(n)|] == Placeholder(n);
    assert s[|Placeholder(n)|..] == rest;
  }

  /** Replacing one placeholder name in a well-formed query replaces exactly
      the holes with that name. */
  lemma {:induction false} ReplaceRender(segs: seq<Segment>, n: string, rep: string)
    requires WellFormed(segs) && BraceFree(n)
    ensures ReplaceAll(Render(segs), Placeholder(n), rep) == Render(ReplaceHole(segs, n, rep))
    decreases |segs|
  {
    if |segs| == 0 {
      assert ReplaceHole(segs, n, rep) == [];
    } else {
      var rest := Render(segs[1..]);
      assert WellFormed(segs[1..]) by {
        forall i | 0 <= i < |segs[1..]| ensures segs[1..][i] == segs[i + 1] { }
      }
      ReplaceRender(segs[1..], n, rep);
      assert ReplaceHole(segs, n, rep)[1..] == ReplaceHole(segs[1..], n, rep);
      assert WellFormed([segs[0]]) by { assert [segs[0]][0] == segs[0]; }
      match segs[0]
      case Text(t) =>
        assert NoOpenBrace(t);
        SkipNoBrace(t, rest, Placeholder(n), rep);
      case Hole(m) =>
        if m == n {
          ReplaceOwnHole(n, rest, rep);
        } else {
          SkipOtherHole(m, n, rest, rep);
        }
    }
  }

  lemma SubstituteStep(segs: seq<Segment>, params: seq<VariableResult>, prefix: string, offset: nat)
    requires |params| > 0
    ensures var i := |params| - 1;
            Substitute(segs, params, prefix, offset)
              == ReplaceHole(Substitute(segs, params[..i], prefix, offset), params[i].name, prefix + NatToString(i + offset))
  {
    var i := |params| - 1;
    var init := params[..i];
    forall j | 0 <= j < |segs| && segs[j].Hole?
      ensures FirstIndex(params, segs[j].name) ==
                if FirstIndex(init, segs[j].name).Some? then FirstIndex(init, segs[j].name)
                else if params[i].name == segs[j].name then Some(i) else None
    {
      var n := segs[j].name;
      var a, b := FirstIndex(params, n), FirstIndex(init, n);
      if b.Some? {
        assert init[b.value] == params[b.value];
        assert forall q :: 0 <= q < b.value ==> init[q] == params[q];
      } else {
        assert forall q :: 0 <= q < i ==> init[q] == params[q];
      }
    }
  }

  lemma SubstituteWellFormed(segs: seq<Segment>, params: seq<VariableResult>, prefix: string, offset: nat)
    requires WellFormed(segs) && NoOpenBrace(prefix)
    ensures WellFormed(Substitute(segs, params, prefix, offset))
  {
    var r := Substitute(segs, params, prefix, offset);
    forall i | 0 <= i < |r| && r[i].Text?
      ensures NoOpenBrace(r[i].text)
    {
      if segs[i].Hole? {
        var k := FirstIndex(params, segs[i].name).value;
        var digits := NatToString(k + offset);
        assert r[i].text == prefix + digits;
      }
    }
  }

  /** `positional` rewrites each placeholder `{{name}}` of a query to
      `prefix` followed by `i + offset`, where `i` is the position of the
      first parameter called `name` in the parameter list (not the order in
      which the placeholders appear); placeholders naming no parameter are
      left as written. Holds whenever text outside placeholders holds no '{'
      and names and prefix hold no braces. */
  lemma {:induction false} PositionalSubstitutes(prefix: string, offset: nat, segs: seq<Segment>, params: seq<VariableResult>)
    requires WellFormed(segs) && NoOpenBrace(prefix)
    requires forall i :: 0 <= i < |params| ==> BraceFree(params[i].name)
    ensures Positional(prefix, offset, Render(segs), params) == Render(Substitute(segs, params, prefix, offset))
    decreases |params|
  {
    if |params| == 0 {
      assert Substitute(segs, params, prefix, offset) == segs;
    } else {
      var i := |params| - 1;
      var init := params[..i];
      assert forall j :: 0 <= j < |init| ==> init[j] == params[j];
      PositionalSubstitutes(prefix, offset, segs, init);
      SubstituteWellFormed(segs, init, prefix, offset);
      ReplaceRender(Substitute(segs, init, prefix, offset), params[i].name, prefix + NatToString(i + offset));
      SubstituteStep(segs, params, prefix, offset);
    }
  }

  const QuerySegments: seq<Segment> := [Text("hello "), Hole("world"), Text(", how are "), Hole("you")]
  const YouThenWorld: seq<VariableResult> :=
    [VariableResult("you", ValueResult.DataBoolean(Some(true))),
     VariableResult("world", ValueResult.DataBoolean(Some(true)))]

  lemma QuerySegmentsWellFormed()
    ensures WellFormed(QuerySegments)
  {
    assert NoOpenBrace("hello ") && BraceFree("world") && NoOpenBrace(", how are ") && BraceFree("you");
  }

  lemma SubstituteQuerySegments()
    ensures Substitute(QuerySegments, YouThenWorld, "$", 1) == [Text("hello "), Text("$2"), Text(", how are "), Text("$1")]
  {
    var r := Substitute(QuerySegments, YouThenWorld, "$", 1);
    assert FirstIndex(YouThenWorld, "world") == Some(1);
    assert FirstIndex(YouThenWorld, "you") == Some(0);
    assert NatToString(2) == "2" && NatToString(1) == "1";
    assert r[0] == Text("hello ");
    assert r[1] == Text("$" + NatToString(1 + 1)) == Text("$2");
    assert r[2] == Text(", how are ");
    assert r[3] == Text("$" + NatToString(0 + 1)) == Text("$1");
  }

  /** The two-placeholder case of the unit tests, "hello {{world}}, how are
      {{you}}": the numbers follow the parameter list, so listing `you`
      before `world` yields "hello $2, how are $1". */
  lemma PositionalFollowsListOrder()
    ensures Positional("$", 1, Render(QuerySegments), YouThenWorld)
            == Render([Text("hello "), Text("$2"), Text(", how are "), Text("$1")])
  {
    QuerySegmentsWellFormed();
    assert BraceFree(YouThenWorld[0].name) && BraceFree(YouThenWorld[1].name);
    PositionalSubstitutes("$", 1, QuerySegments, YouThenWorld);
    SubstituteQuerySegments();
  }
}
