/**
 One data line of the uploaded CSV turned into a time-series record, or
 dropped: the body of the `for (const line of lines)` loop of the `/upload`
 handler. The line is split on commas; field 0 is the time, field 2 the
 parameter, field 4 the value and field 6 the unit. The placeholder
 parameters `Pump1` and `Pump2` are renamed to the labels the operator chose.
 */
module RowParser {
  import opened JsString

  datatype Option<+T> = None | Some(value: T)

  /**
   What `parseFloat` returns: not-a-number, or a finite number. Infinity
   cannot be represented, and negative zero is folded into zero.
   */
  datatype Number = NaN | Num(value: real)

  /** A row of the time-series table, as handed to the bulk insert. */
  datatype Record = Record(runId: string, timeStamp: real, parameter: string, processValue: real, unit: string)

  /** The run every upload is filed under. */
  const RunId: string := "R001002"

  /** The default for an empty or missing parameter or unit. */
  const Unknown: string := "Unknown"

  const Pump1: string := "Pump1"
  const Pump2: string := "Pump2"

  /** `parts[i]?.trim()`: the trimmed field, or `undefined` past the end. */
  function TrimmedField(parts: seq<string>, i: nat): (f: Option<string>)
    ensures f.Some? <==> i < |parts|
    ensures f.Some? ==> f.value == Trim(parts[i])
  {
    if i < |parts| then Some(Trim(parts[i])) else None
  }

  /**
   `s || "Unknown"` on the result of `?.trim()`: `undefined` and the empty
   string are the falsy values and give the default.
   */
  function OrUnknown(s: Option<string>): (r: string)
    ensures r != []
    ensures s.Some? && s.value != [] ==> r == s.value
    ensures s.None? || s.value == [] ==> r == Unknown
  {
    if s.None? || s.value == [] then Unknown else s.value
  }

  /**
   `parseFloat(s)` where `s` is `undefined` for a missing field: `undefined`
   converts to the text "undefined", which is not a number.
   */
  function ParseOptional(s: Option<string>, parse: string -> Number): (n: Number)
    ensures s.None? ==> n.NaN?
  {
    if s.None? then NaN else parse(s.value)
  }

  /** `n || 0`: `NaN` and `0` are the falsy numbers and give `0`. */
  function OrZero(n: Number): (r: Number)
    ensures r.Num?
    ensures n.Num? ==> r == n
    ensures n.NaN? ==> r == Num(0.0)
  {
    if n.NaN? || n.value == 0.0 then Num(0.0) else n
  }

  /**
   The record a line yields, or `None` when it is skipped. `parse` stands
   for `parseFloat`. The line is split on commas and its fields are read
   by `ParseFields`; since no field holds a comma, neither does the unit.
   */
  function ParseRow(line: string, pump1: string, pump2: string, parse: string -> Number): (r: Option<Record>)
    ensures r.Some? <==> |Split(line, ',')| >= 4 && parse(Trim(Split(line, ',')[0])).Num?
    ensures r.Some? ==> ',' !in r.value.unit
  {
    var parts := Split(line, ',');
    var r := ParseFields(parts, pump1, pump2, parse);
    assert r.Some? ==> ',' !in r.value.unit by {
      UnitLacksComma(line);
    }
    r
  }

  /**
   The record the fields of a line yield, or `None` when the line is
   skipped. The two pump renamings are sequential: the second one sees the
   result of the first.

   The line is kept exactly when it has at least four fields and its
   trimmed first field parses to a number. A kept record is filed under
   `RunId`, its time is the parsed first field, and its unit is never
   empty.
   */
  function ParseFields(parts: seq<string>, pump1: string, pump2: string, parse: string -> Number): (r: Option<Record>)
    ensures r.Some? <==> |parts| >= 4 && parse(Trim(parts[0])).Num?
    ensures r.Some? ==> r.value.runId == RunId && r.value.timeStamp == parse(Trim(parts[0])).value
    ensures r.Some? ==> r.value.unit != []
  {
    if |parts| < 4 then None
    else
      var timeStamp := parse(Trim(parts[0]));
      var rawParameter := OrUnknown(TrimmedField(parts, 2));
      var processValue := OrZero(ParseOptional(TrimmedField(parts, 4), parse));
      var unit := OrUnknown(TrimmedField(parts, 6));
      var renamedPump1 := if rawParameter == Pump1 then pump1 else rawParameter;
      var parameter := if renamedPump1 == Pump2 then pump2 else renamedPump1;
      if timeStamp.NaN? || processValue.NaN? then None
      else Some(Record(RunId, timeStamp.value, parameter, processValue.value, unit))
  }

  /** A line with fewer than three commas is always skipped, whatever else it holds. */
  lemma FewFieldsSkipped(line: string, pump1: string, pump2: string, parse: string -> Number)
    requires multiset(line)[','] < 3
    ensures ParseRow(line, pump1, pump2, parse).None?
  {
    SplitCount(line, ',');
  }

  /** The unit taken from a line never holds a comma, since no field of the line does. */
  lemma UnitLacksComma(line: string)
    ensures ',' !in OrUnknown(TrimmedField(Split(line, ','), 6))
  {
    var parts := Split(line, ',');
    if |parts| > 6 {
      SplitFieldsLackSeparator(line, ',');
      TrimKeepsOut(parts[6], ',');
    }
  }

  /** The trimmed parameter field, before any renaming. */
  function RawParameter(line: string): (p: string)
    requires |Split(line, ',')| >= 4
  {
    Trim(Split(line, ',')[2])
  }

  /**
   The parameter of a kept record: "Unknown" for an empty or blank
   field; the pump1 label for "Pump1", unless that label is itself
   "Pump2", in which case the pump2 label; the pump2 label for "Pump2";
   and any other field value unchanged.
   */
  lemma ParameterRule(line: string, pump1: string, pump2: string, parse: string -> Number)
    requires ParseRow(line, pump1, pump2, parse).Some?
    ensures var p := RawParameter(line);
      var parameter := ParseRow(line, pump1, pump2, parse).value.parameter;
      && (p == [] ==> parameter == Unknown)
      && (p == Pump1 && pump1 != Pump2 ==> parameter == pump1)
      && (p == Pump1 && pump1 == Pump2 ==> parameter == pump2)
      && (p == Pump2 ==> parameter == pump2)
      && (p != [] && p != Pump1 && p != Pump2 ==> parameter == p)
  {
  }

  /**
   The value field never causes a skip: a line with a missing or
   unparseable field 4 is kept (when its time parses) with value 0, and
   otherwise carries the parsed value.
   */
  lemma ProcessValueRule(line: string, pump1: string, pump2: string, parse: string -> Number)
    requires |Split(line, ',')| >= 4 && parse(Trim(Split(line, ',')[0])).Num?
    ensures ParseRow(line, pump1, pump2, parse).Some?
    ensures var parts := Split(line, ',');
      var v := ParseRow(line, pump1, pump2, parse).value.processValue;
      && (|parts| <= 4 || parse(Trim(parts[4])).NaN? ==> v == 0.0)
      && (|parts| > 4 && parse(Trim(parts[4])).Num? ==> v == parse(Trim(parts[4])).value)
  {
  }

  /** The unit is the trimmed field 6, or "Unknown" when the line has no field 6 or it is blank. */
  lemma UnitRule(line: string, pump1: string, pump2: string, parse: string -> Number)
    requires ParseRow(line, pump1, pump2, parse).Some?
    ensures var parts := Split(line, ',');
      var u := ParseRow(line, pump1, pump2, parse).value.unit;
      && (|parts| <= 6 || AllWhitespace(parts[6]) ==> u == Unknown)
      && (|parts| > 6 && !AllWhitespace(parts[6]) ==> u == Trim(parts[6]))
  {
    var parts := Split(line, ',');
    if |parts| > 6 {
      TrimEmptyIffBlank(parts[6]);
    }
  }
}
